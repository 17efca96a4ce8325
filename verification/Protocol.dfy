/** JSON values and the message shapes that every protocol adapter shares. */
module Protocol {
  import opened Text

  datatype Value =
    | Null
    | Bool(flag: bool)
    | Num(number: real)
    | Str(text: string)
    | Arr(items: seq<Value>)
    | Obj(fields: map<string, Value>)

  /** The JSON codec: `decode` is json.Unmarshal and `encode` is json.Marshal. */
  datatype Codec = Codec(decode: string -> Option<Value>, encode: Value -> string)

  /** Encoding this value and decoding again gives it back, and what is encoded has no outer space. */
  predicate Faithful(codec: Codec, v: Value) {
    codec.decode(codec.encode(v)) == Some(v) && codec.encode(v) != "" && Trimmed(codec.encode(v))
  }

  datatype ToolCall = ToolCall(id: string, kind: string, name: string, arguments: string)

  datatype Message = Message(role: string, content: Value, toolCallId: string, toolCalls: seq<ToolCall>)

  datatype Result<T> = Ok(value: T) | Error(message: string)

  function Appended(start: seq<Message>, more: Result<seq<Message>>): Result<seq<Message>> {
    match more
    case Error(e) => Error(e)
    case Ok(ms) => Ok(start + ms)
  }

  lemma AppendedTwice(a: seq<Message>, b: seq<Message>, more: Result<seq<Message>>)
    ensures Appended(a, Appended(b, more)) == Appended(a + b, more)
  {
    if more.Ok? {
      Assoc(a, b, more.value);
    }
  }

  /** A missing key reads as nil. */
  function Field(m: map<string, Value>, key: string): Value {
    if key in m then m[key] else Null
  }

  /** A missing key and a value of another type both read as the empty string. */
  function StrField(m: map<string, Value>, key: string): string {
    if key in m && m[key].Str? then m[key].text else ""
  }

  function Ids(calls: seq<ToolCall>): (ids: seq<string>)
    ensures |ids| == |calls|
    ensures forall k :: 0 <= k < |calls| ==> ids[k] == calls[k].id
  {
    seq(|calls|, k requires 0 <= k < |calls| => calls[k].id)
  }

  predicate Distinct<T(==)>(s: seq<T>) {
    forall i, j | 0 <= i < j < |s| :: s[i] != s[j]
  }

  ghost function Elements<T>(s: seq<T>): set<T> {
    set x | x in s
  }

  lemma Assoc<T>(a: seq<T>, b: seq<T>, c: seq<T>)
    ensures a + (b + c) == (a + b) + c
  {
  }

  lemma LastOf<T>(a: seq<T>, s: seq<T>)
    requires s != []
    ensures a + s == a + s[..|s| - 1] + [s[|s| - 1]]
  {
  }

  lemma DistinctAppend<T>(a: seq<T>, b: seq<T>)
    ensures Distinct(a + b) <==> Distinct(a) && Distinct(b) && Elements(a) !! Elements(b)
  {
    var s := a + b;
    if Distinct(s) {
      forall i, j | 0 <= i < j < |a| ensures a[i] != a[j] {
        assert s[i] == a[i] && s[j] == a[j];
      }
      forall i, j | 0 <= i < j < |b| ensures b[i] != b[j] {
        assert s[|a| + i] == b[i] && s[|a| + j] == b[j];
      }
      forall i, j | 0 <= i < |a| && 0 <= j < |b| ensures a[i] != b[j] {
        assert s[i] == a[i] && s[|a| + j] == b[j];
      }
      assert forall x | x in Elements(a) :: x !in Elements(b);
    }
    if Distinct(a) && Distinct(b) && Elements(a) !! Elements(b) {
      forall i, j | 0 <= i < j < |s| ensures s[i] != s[j] {
        if i < |a| && |a| <= j {
          assert s[i] in Elements(a) && s[j] in Elements(b);
        }
      }
    }
  }
}
