/** The first step of fencedToolCalls: calls recovered from `tool_call` fences in model text, and the
    printed form they invert. The later steps are in RecoveredTools. */
module FencedTools {
  import opened Text
  import opened Protocol

  const TAG := "```tool_call"

  /** `allowed` and `kindOf` come from the request's tools; `callId` hashes index, name and arguments. */
  datatype Env = Env(codec: Codec, allowed: set<string>, choice: Value, kindOf: string -> string,
                     callId: (nat, string, string) -> string)

  // ---------------------------------------------------------------------------------------------
  // The fence pattern: tag, \s*, newline, shortest body, closing fence, letters in any case
  // ---------------------------------------------------------------------------------------------

  function Lower(c: char): char {
    if 'A' <= c <= 'Z' then ((c as int) + 32) as char else c
  }

  predicate StartsWithTag(s: string) {
    |TAG| <= |s| && forall k | 0 <= k < |TAG| :: Lower(s[k]) == TAG[k]
  }

  const UPPER := "ABCDEFGHIJKLMNOPQRSTUVWXYZ"
  const LOWER := "abcdefghijklmnopqrstuvwxyz"

  lemma UpperOrder()
    ensures |UPPER| == 26 && forall k | 0 <= k < 26 :: UPPER[k] as int == 65 + k
  {
  }

  lemma LowerOrder()
    ensures |LOWER| == 26 && forall k | 0 <= k < 26 :: LOWER[k] as int == 97 + k
  {
  }

  lemma InOrder(s: string, first: int, c: char)
    requires |s| == 26 && forall k | 0 <= k < 26 :: s[k] as int == first + k
    ensures c in s <==> first <= c as int <= first + 25
  {
    if first <= c as int <= first + 25 {
      assert s[c as int - first] == c;
    }
  }

  lemma UpperLetters(c: char)
    ensures c in UPPER <==> 'A' <= c <= 'Z'
  {
    UpperOrder();
    InOrder(UPPER, 65, c);
  }

  lemma LowerLetters(c: char)
    ensures c in LOWER <==> 'a' <= c <= 'z'
  {
    LowerOrder();
    InOrder(LOWER, 97, c);
  }

  /** Upper-case letters become the lower-case ones at the same place of the alphabet, and nothing else
      changes. */
  lemma LowerExactly(c: char)
    ensures forall k | 0 <= k < 26 :: Lower(UPPER[k]) == LOWER[k]
    ensures c !in UPPER ==> Lower(c) == c
  {
    UpperOrder();
    LowerOrder();
    UpperLetters(c);
  }

  /** The class \s of the pattern language. */
  predicate PatternSpace(c: char) {
    c == '\t' || c == '\n' || c == '\U{0C}' || c == '\r' || c == ' '
  }

  function SpaceRun(s: string): (n: nat)
    ensures n <= |s|
    ensures forall k | 0 <= k < n :: PatternSpace(s[k])
    ensures n < |s| ==> !PatternSpace(s[n])
  {
    if s != "" && PatternSpace(s[0]) then 1 + SpaceRun(s[1..]) else 0
  }

  /** The position after the last `c`, or 0. */
  function AfterLast(s: string, c: char): (n: nat)
    ensures n <= |s|
    ensures n > 0 ==> s[n - 1] == c
    ensures forall k | n <= k < |s| :: s[k] != c
  {
    if s == "" then 0 else if s[|s| - 1] == c then |s| else AfterLast(s[..|s| - 1], c)
  }

  /** Where the body starts in the text behind a tag, or 0. The greedy space takes the last newline
      of the white space that follows; were there no closing fence after it, there would be none
      after an earlier newline either. */
  function BodyStart(t: string): (n: nat)
    ensures n <= |t|
  {
    AfterLast(t[..SpaceRun(t)], '\n')
  }

  /** A match at the start of `s`: its body and the text behind it. */
  function MatchFront(s: string): (r: Option<(string, string)>)
    ensures r.Some? ==> |r.value.1| < |s|
  {
    if !StartsWithTag(s) || BodyStart(s[|TAG|..]) == 0 then None
    else Closed(s[|TAG|..][BodyStart(s[|TAG|..])..])
  }

  function Closed(u: string): (r: Option<(string, string)>)
    ensures r.Some? ==> |r.value.1| < |u|
  {
    var close := Index(u, FENCE);
    if close < 0 then None else Some((u[..close], u[close + |FENCE|..]))
  }

  /** The bodies of all matches, left to right and without overlap. */
  function Bodies(s: string): seq<string>
    decreases |s|
  {
    match MatchFront(s)
    case Some(m) => [m.0] + Bodies(m.1)
    case None => if s == "" then [] else Bodies(s[1..])
  }

  // ---------------------------------------------------------------------------------------------
  // From a body to a call
  // ---------------------------------------------------------------------------------------------

  function FirstString(m: map<string, Value>, keys: seq<string>): string {
    if keys == [] then ""
    else if Trim(StrField(m, keys[0])) != "" then Trim(StrField(m, keys[0]))
    else FirstString(m, keys[1..])
  }

  const NAME_KEYS := ["name", "tool", "tool_name", "function"]

  predicate ChoiceAllows(choice: Value, name: string) {
    match choice
    case Str(s) => s != "none" && (s != "required" || name != "")
    case Obj(m) =>
      if Field(m, "function").Obj? then StrField(Field(m, "function").fields, "name") == name
      else Field(m, "name").Str? ==> Field(m, "name").text == name
    case _ => true
  }

  function ArgumentsOf(m: map<string, Value>): Value {
    if Field(m, "arguments") != Null then Field(m, "arguments")
    else if Field(m, "args") != Null then Field(m, "args")
    else Obj(m - {"name", "tool", "tool_name", "function"})
  }

  /** What a piece of text asks for, before it gets an id. */
  datatype Call = Call(kind: string, name: string, args: Value)

  /** The call that a body asks for, if it is allowed. */
  function CallIn(env: Env, body: string): Option<Call> {
    match env.codec.decode(Trim(body))
    case Some(Obj(m)) =>
      var name := FirstString(m, NAME_KEYS);
      if name == "" || name !in env.allowed || !ChoiceAllows(env.choice, name) then None
      else Some(Call(env.kindOf(name), name, ArgumentsOf(m)))
    case _ => None
  }

  /** What the forms of a tool choice admit: "none" nothing, any other word every tool, an object that
      names a function or a tool that one alone, and everything else every tool; "required" asks for a
      name. */
  lemma ChoiceExactly(choice: Value, name: string)
    ensures choice == Str("none") ==> !ChoiceAllows(choice, name)
    ensures choice.Str? && choice != Str("none") ==>
              (ChoiceAllows(choice, name) <==> name != "" || choice != Str("required"))
    ensures choice.Obj? && "function" in choice.fields && choice.fields["function"].Obj? ==>
              var f := choice.fields["function"].fields;
              name != "" ==> (ChoiceAllows(choice, name) <==> "name" in f && f["name"] == Str(name))
    ensures choice.Obj? && ("function" !in choice.fields || !choice.fields["function"].Obj?) ==>
              var m := choice.fields;
              ChoiceAllows(choice, name) <==> "name" !in m || !m["name"].Str? || m["name"] == Str(name)
    ensures !choice.Str? && !choice.Obj? ==> ChoiceAllows(choice, name)
  {
  }

  /** The first of the keys whose value is text that is not blank gives the trimmed text. */
  lemma {:induction false} FirstStringExactly(m: map<string, Value>, keys: seq<string>)
    ensures FirstString(m, keys) == "" ==> forall k | 0 <= k < |keys| :: Trim(StrField(m, keys[k])) == ""
    ensures FirstString(m, keys) != "" ==>
              exists k :: 0 <= k < |keys| && FirstString(m, keys) == Trim(StrField(m, keys[k]))
                          && forall i | 0 <= i < k :: Trim(StrField(m, keys[i])) == ""
  {
    if keys != [] && Trim(StrField(m, keys[0])) == "" {
      FirstStringExactly(m, keys[1..]);
      if FirstString(m, keys) != "" {
        var k :| 0 <= k < |keys[1..]| && FirstString(m, keys) == Trim(StrField(m, keys[1..][k]))
                 && forall i | 0 <= i < k :: Trim(StrField(m, keys[1..][i])) == "";
        assert forall i | 0 < i < k + 1 :: Trim(StrField(m, keys[1..][i - 1])) == "" && keys[1..][i - 1] == keys[i];
        assert keys[k + 1] == keys[1..][k];
      }
    }
  }

  /** The arguments of a unified call: `arguments`, or else `args`, or else the object without its
      names. */
  lemma ArgumentsExactly(m: map<string, Value>)
    ensures "arguments" in m && m["arguments"] != Null ==> ArgumentsOf(m) == m["arguments"]
    ensures ("arguments" !in m || m["arguments"] == Null) && "args" in m && m["args"] != Null ==>
              ArgumentsOf(m) == m["args"]
    ensures ("arguments" !in m || m["arguments"] == Null) && ("args" !in m || m["args"] == Null) ==>
              ArgumentsOf(m) ==
              Obj(map k | k in m && k != "name" && k != "tool" && k != "tool_name" && k != "function" :: m[k])
  {
    var rest := map k | k in m && k != "name" && k != "tool" && k != "tool_name" && k != "function" :: m[k];
    assert rest == m - {"name", "tool", "tool_name", "function"};
  }

  /** A body asks for a call if and only if it is JSON for an object that names an allowed tool which
      the choice admits: for that tool with the arguments of the object. */
  lemma CallInExactly(env: Env, body: string)
    ensures var v := env.codec.decode(Trim(body));
            if v.Some? && v.value.Obj? then
              var m := v.value.fields;
              var name := FirstString(m, ["name", "tool", "tool_name", "function"]);
              && (CallIn(env, body).Some? <==> name != "" && name in env.allowed && ChoiceAllows(env.choice, name))
              && (CallIn(env, body).Some? ==>
                    var call := CallIn(env, body).value;
                    call.name == name && call.kind == env.kindOf(name) && call.args == ArgumentsOf(m))
            else CallIn(env, body).None?
  {
  }

  function Detected(env: Env, call: Call, index: nat): ToolCall {
    var args := env.codec.encode(call.args);
    ToolCall(env.callId(index, call.name, args), call.kind, call.name, args)
  }

  function Found(env: Env, bodies: seq<string>): (r: seq<Option<Call>>)
    ensures |r| == |bodies|
    ensures forall k :: 0 <= k < |bodies| ==> r[k] == CallIn(env, bodies[k])
  {
    seq(|bodies|, k requires 0 <= k < |bodies| => CallIn(env, bodies[k]))
  }

  /** The calls among the bodies, numbered from `index`. */
  function Numbered(env: Env, found: seq<Option<Call>>, index: nat): seq<ToolCall>
    decreases |found|
  {
    if found == [] then []
    else
      match found[0]
      case Some(call) => [Detected(env, call, index)] + Numbered(env, found[1..], index + 1)
      case None => Numbered(env, found[1..], index)
  }

  function FencedCalls(env: Env, text: string): seq<ToolCall> {
    Numbered(env, Found(env, Bodies(text)), 0)
  }

  // ---------------------------------------------------------------------------------------------
  // The scan finds what the pattern describes
  // ---------------------------------------------------------------------------------------------

  /** `s` starts with a match of the pattern: the tag in any case, white space that ends in a newline,
      a body and the closing fence. */
  ghost predicate Pattern(s: string, gap: string, body: string, rest: string) {
    && StartsWithTag(s)
    && gap != "" && gap[|gap| - 1] == '\n' && (forall k | 0 <= k < |gap| :: PatternSpace(gap[k]))
    && s[|TAG|..] == gap + (body + FENCE + rest)
  }

  lemma {:induction false} SpaceRunCovers(gap: string, rest: string)
    requires forall k | 0 <= k < |gap| :: PatternSpace(gap[k])
    ensures SpaceRun(gap + rest) >= |gap|
  {
    if gap != "" {
      assert (gap + rest)[1..] == gap[1..] + rest;
      SpaceRunCovers(gap[1..], rest);
    }
  }

  lemma FenceInPart(t: string, start: nat, p: nat)
    requires start <= p && At(t, p, FENCE)
    ensures Contains(t[start..], FENCE)
  {
    assert t[start..][p - start..p - start + 3] == t[p..p + 3];
    assert At(t[start..], p - start, FENCE);
  }

  lemma GapInRun(t: string, gap: string, more: string)
    requires gap != "" && gap[|gap| - 1] == '\n' && forall k | 0 <= k < |gap| :: PatternSpace(gap[k])
    requires t == gap + more
    ensures |gap| <= BodyStart(t) <= SpaceRun(t)
  {
    SpaceRunCovers(gap, more);
    assert t[..SpaceRun(t)][|gap| - 1] == '\n';
  }

  lemma FenceAfter(front: string, rest: string)
    ensures At(front + FENCE + rest, |front|, FENCE) && (front + FENCE + rest)[|front|] == '`'
  {
    assert (front + FENCE + rest)[|front|..|front| + 3] == FENCE;
    assert (front + FENCE + rest)[|front|] == FENCE[0];
  }

  /** A match of the pattern has its gap before the start that the scan takes, and its closing fence
      behind it. */
  lemma PatternStart(s: string, gap: string, body: string, rest: string)
    requires Pattern(s, gap, body, rest)
    ensures var t := s[|TAG|..]; |gap| <= BodyStart(t) && Contains(t[BodyStart(t)..], FENCE)
  {
    var t, p := s[|TAG|..], |gap| + |body|;
    GapInRun(t, gap, body + FENCE + rest);
    assert t == (gap + body) + FENCE + rest;
    FenceAfter(gap + body, rest);
    assert !PatternSpace(t[p]);
    FenceInPart(t, BodyStart(t), p);
  }

  lemma StartIsGap(t: string)
    requires BodyStart(t) > 0
    ensures var gap := t[..BodyStart(t)];
            && gap != "" && gap[|gap| - 1] == '\n' && (forall k | 0 <= k < |gap| :: PatternSpace(gap[k]))
  {
    var n := BodyStart(t);
    assert t[..SpaceRun(t)][n - 1] == t[n - 1];
  }

  lemma ClosedSplits(u: string)
    requires Closed(u).Some?
    ensures u == Closed(u).value.0 + FENCE + Closed(u).value.1
  {
    SplitAtFirst(u, FENCE);
  }

  /** What the scan takes is a match of the pattern. */
  lemma FrontIsPattern(s: string)
    requires MatchFront(s).Some?
    ensures Pattern(s, s[|TAG|..][..BodyStart(s[|TAG|..])], MatchFront(s).value.0, MatchFront(s).value.1)
  {
    var t := s[|TAG|..];
    var start := BodyStart(t);
    StartIsGap(t);
    ClosedSplits(t[start..]);
    assert t == t[..start] + t[start..];
  }

  /** The longer gap is preferred, and then the shorter body. */
  predicate Longer(gap: string, body: string, g: string, b: string) {
    |g| < |gap| || (|g| == |gap| && |b| >= |body|)
  }

  /** The match that the pattern language prefers. */
  ghost predicate Preferred(s: string, gap: string, body: string, rest: string) {
    Pattern(s, gap, body, rest) && forall g, b, r :: Pattern(s, g, b, r) ==> Longer(gap, body, g, b)
  }

  lemma PatternIsLater(s: string, g: string, b: string, r: string)
    requires MatchFront(s).Some? && Pattern(s, g, b, r)
    ensures Longer(s[|TAG|..][..BodyStart(s[|TAG|..])], MatchFront(s).value.0, g, b)
  {
    var t := s[|TAG|..];
    PatternStart(s, g, b, r);
    if |g| == BodyStart(t) {
      assert t[|g|..] == b + FENCE + r;
      FenceAfter(b, r);
    }
  }

  lemma FoundIsPreferred(s: string)
    requires MatchFront(s).Some?
    ensures Preferred(s, s[|TAG|..][..BodyStart(s[|TAG|..])], MatchFront(s).value.0, MatchFront(s).value.1)
  {
    var gap, body := s[|TAG|..][..BodyStart(s[|TAG|..])], MatchFront(s).value.0;
    FrontIsPattern(s);
    forall g, b, r | Pattern(s, g, b, r) ensures Longer(gap, body, g, b) {
      PatternIsLater(s, g, b, r);
    }
  }

  /** The scan finds a match at the start of a text if and only if there is one, and it finds the
      preferred one. */
  lemma MatchFrontExactly(s: string)
    ensures MatchFront(s).None? ==> forall gap, body, rest :: !Pattern(s, gap, body, rest)
    ensures MatchFront(s).Some? ==> exists gap :: Preferred(s, gap, MatchFront(s).value.0, MatchFront(s).value.1)
  {
    forall g, b, r | Pattern(s, g, b, r) ensures MatchFront(s).Some? {
      PatternStart(s, g, b, r);
    }
    if MatchFront(s).Some? {
      FoundIsPreferred(s);
    }
  }

  /** Scanning a text: the first position with a match gives the first body, and the scan goes on
      behind it; without a match there is nothing. */
  lemma {:induction false} BodiesScan(s: string, k: nat)
    requires k <= |s| && forall i | 0 <= i < k :: MatchFront(s[i..]).None?
    ensures MatchFront(s[k..]).Some? ==>
              Bodies(s) == [MatchFront(s[k..]).value.0] + Bodies(MatchFront(s[k..]).value.1)
    ensures k == |s| ==> Bodies(s) == []
    decreases k
  {
    assert s[0..] == s;
    if k > 0 {
      assert MatchFront(s[0..]).None?;
      forall i | 0 <= i < k - 1 ensures MatchFront(s[1..][i..]).None? {
        assert s[1..][i..] == s[i + 1..];
      }
      BodiesScan(s[1..], k - 1);
      assert s[1..][k - 1..] == s[k..];
    }
  }

  // ---------------------------------------------------------------------------------------------
  // The printed form
  // ---------------------------------------------------------------------------------------------

  function Framed(body: string): string {
    "\n" + body + "\n"
  }

  function Fence(body: string): string {
    TAG + Framed(body) + FENCE
  }

  /** Some prose and the body of the fence that follows it. */
  datatype Part = Part(prose: string, body: string)

  function Document(parts: seq<Part>, tail: string): string {
    if parts == [] then tail else parts[0].prose + (Fence(parts[0].body) + Document(parts[1..], tail))
  }

  ghost predicate NoTag(s: string) {
    forall p | 0 <= p <= |s| :: !StartsWithTag(s[p..])
  }

  lemma {:induction false} TrimDropsFront(w: string, s: string)
    requires forall k | 0 <= k < |w| :: IsSpace(w[k])
    ensures Trim(w + s) == Trim(s)
  {
    if w == "" {
      assert w + s == s;
    } else {
      assert (w + s)[1..] == w[1..] + s;
      TrimDropsFront(w[1..], s);
    }
  }

  lemma {:induction false} TrimDropsNewline(s: string)
    ensures Trim(s + "\n") == Trim(s)
  {
    if s != "" && IsSpace(s[0]) {
      assert (s + "\n")[1..] == s[1..] + "\n";
      TrimDropsNewline(s[1..]);
    } else if s == "" {
      assert (s + "\n")[1..] == "";
    } else {
      assert TrimLeft(s + "\n") == s + "\n";
      assert (s + "\n")[..|s + "\n"| - 1] == s;
    }
  }

  /** A tag cannot begin in prose and end in the fence behind it. */
  lemma NoTagAcross(prose: string, rest: string)
    requires prose != "" && NoTag(prose) && (rest == "" || StartsWithTag(rest))
    ensures !StartsWithTag(prose + rest)
  {
    var s, n := prose + rest, |prose|;
    if n >= |TAG| {
      assert !StartsWithTag(prose[0..]);
      assert forall k | 0 <= k < |TAG| :: s[k] == prose[k];
    } else if rest != "" {
      assert s[n] == rest[0] && s[n + 1] == rest[1] && s[n + 2] == rest[2];
      assert Lower(rest[0]) == TAG[0] == '`' && Lower(rest[1]) == '`' && Lower(rest[2]) == '`';
      if n >= 3 {
        assert TAG[n] != '`';
      } else {
        assert TAG[3] != '`' && s[3] == rest[3 - n];
      }
    }
  }

  lemma {:induction false} ProseIsSkipped(prose: string, rest: string)
    requires NoTag(prose) && (rest == "" || StartsWithTag(rest))
    ensures Bodies(prose + rest) == Bodies(rest)
  {
    if prose == "" {
      assert prose + rest == rest;
    } else {
      NoTagAcross(prose, rest);
      assert (prose + rest)[1..] == prose[1..] + rest;
      forall p | 0 <= p <= |prose[1..]| ensures !StartsWithTag(prose[1..][p..]) {
        assert prose[1..][p..] == prose[p + 1..];
      }
      ProseIsSkipped(prose[1..], rest);
    }
  }

  lemma FenceStart(body: string, rest: string)
    ensures StartsWithTag(Fence(body) + rest)
    ensures (Fence(body) + rest)[|TAG|..] == Framed(body) + FENCE + rest
  {
    var s := Fence(body) + rest;
    assert s == TAG + (Framed(body) + FENCE + rest);
    assert forall k | 0 <= k < |TAG| :: s[k] == TAG[k];
  }

  /** The closing fence is the first one after any part of the body. */
  lemma CloseFound(v: string, rest: string)
    requires v != "" && v[|v| - 1] == '\n' && !Contains(v, FENCE)
    ensures Index(v + FENCE + rest, FENCE) == |v|
  {
    var u := v + FENCE + rest;
    assert u[|v|..|v| + 3] == FENCE;
    assert At(u, |v|, FENCE);
    forall j | 0 <= j < |v| ensures !At(u, j, FENCE) {
      if j + 3 <= |v| {
        assert u[j..j + 3] == v[j..j + 3];
        assert !At(v, j, FENCE);
      } else {
        assert u[j..j + 3][|v| - 1 - j] == v[|v| - 1] != '`';
      }
    }
  }

  /** The body ends at the closing fence, also when it is empty. */
  lemma BodyCut(v: string, rest: string)
    requires v == "" || (v[|v| - 1] == '\n' && !Contains(v, FENCE))
    ensures Closed(v + FENCE + rest) == Some((v, rest))
  {
    var u := v + FENCE + rest;
    if v == "" {
      assert u[0..3] == FENCE;
      assert At(u, 0, FENCE);
    } else {
      CloseFound(v, rest);
    }
    assert u[..|v|] == v && u[|v| + |FENCE|..] == rest;
  }

  lemma TrimFramed(w: string, v: string, body: string)
    requires w + v == Framed(body) && forall k | 0 <= k < |w| :: IsSpace(w[k])
    ensures Trim(v) == Trim(body)
  {
    TrimDropsFront(w, v);
    assert w + v == "\n" + (body + "\n");
    TrimDropsFront("\n", body + "\n");
    TrimDropsNewline(body);
  }

  /** The last newline of the space behind the tag lies before the closing fence. */
  lemma StartInside(inner: string, after: string)
    requires inner != "" && inner[0] == '\n' && after != "" && after[0] == '`'
    ensures var start := BodyStart(inner + after);
            && 1 <= start <= |inner|
            && forall k | 0 <= k < start :: IsSpace(inner[k])
  {
    var t := inner + after;
    var run := SpaceRun(t);
    assert t[|inner|] == '`' && t[0] == '\n';
    assert t[..run][0] == '\n';
    var start := AfterLast(t[..run], '\n');
    forall k | 0 <= k < start ensures IsSpace(inner[k]) {
      assert inner[k] == t[k] && PatternSpace(t[k]);
    }
  }

  /** Behind the tag, the match splits the framed body at the last newline of its leading space. */
  lemma MatchSplits(inner: string, rest: string)
    requires inner != "" && inner[0] == '\n' && inner[|inner| - 1] == '\n' && !Contains(inner, FENCE)
    ensures var n := BodyStart(inner + FENCE + rest);
            && 1 <= n <= |inner|
            && (forall k | 0 <= k < n :: IsSpace(inner[k]))
            && Closed((inner + FENCE + rest)[n..]) == Some((inner[n..], rest))
  {
    var t := inner + FENCE + rest;
    assert t == inner + (FENCE + rest);
    StartInside(inner, FENCE + rest);
    var v := inner[BodyStart(t)..];
    assert t[BodyStart(t)..] == v + FENCE + rest;
    NoFenceInTail(inner, BodyStart(t));
    BodyCut(v, rest);
  }

  lemma NoFenceInTail(s: string, start: nat)
    requires start <= |s| && !Contains(s, FENCE)
    ensures !Contains(s[start..], FENCE)
  {
    if Contains(s[start..], FENCE) {
      var i := Index(s[start..], FENCE);
      assert s[start + i..start + i + 3] == s[start..][i..i + 3];
      assert At(s, start + i, FENCE);
    }
  }

  lemma NoFenceInFrame(body: string)
    requires !Contains(body, FENCE)
    ensures !Contains(Framed(body), FENCE)
  {
    var s := Framed(body);
    forall j | 0 <= j <= |s| ensures !At(s, j, FENCE) {
      if j + 3 <= |s| {
        assert s[j..j + 3][0] == s[j] && s[j..j + 3][2] == s[j + 2];
        if 1 <= j && j + 3 < |s| {
          assert s[j..j + 3] == body[j - 1..j + 2];
          assert !At(body, j - 1, FENCE);
        }
      }
    }
  }

  lemma FrameSplits(body: string, rest: string) returns (w: string, v: string)
    requires !Contains(body, FENCE)
    ensures w + v == Framed(body) && forall k | 0 <= k < |w| :: IsSpace(w[k])
    ensures w != "" && BodyStart(Framed(body) + FENCE + rest) == |w|
    ensures Closed((Framed(body) + FENCE + rest)[|w|..]) == Some((v, rest))
  {
    NoFenceInFrame(body);
    MatchSplits(Framed(body), rest);
    var n := BodyStart(Framed(body) + FENCE + rest);
    w, v := Framed(body)[..n], Framed(body)[n..];
  }

  /** A fence is matched as a whole; `w` is the part of its leading space that the match skips. */
  lemma FenceFound(body: string, rest: string) returns (w: string, v: string)
    requires !Contains(body, FENCE)
    ensures w + v == Framed(body) && forall k | 0 <= k < |w| :: IsSpace(w[k])
    ensures MatchFront(Fence(body) + rest) == Some((v, rest))
  {
    FenceStart(body, rest);
    w, v := FrameSplits(body, rest);
  }

  lemma FenceMatched(body: string, rest: string)
    requires !Contains(body, FENCE)
    ensures var m := MatchFront(Fence(body) + rest);
            m.Some? && Trim(m.value.0) == Trim(body) && m.value.1 == rest
  {
    var w, v := FenceFound(body, rest);
    TrimFramed(w, v, body);
  }

  ghost predicate PartOk(p: Part) {
    NoTag(p.prose) && !Contains(p.body, FENCE)
  }

  /** Exactly the fences that were printed are found, in order, and their bodies up to outer space. */
  lemma {:induction false} BodiesRecovered(parts: seq<Part>, tail: string)
    requires NoTag(tail) && forall p | p in parts :: PartOk(p)
    ensures var bodies := Bodies(Document(parts, tail));
            |bodies| == |parts| && forall k | 0 <= k < |parts| :: Trim(bodies[k]) == Trim(parts[k].body)
    decreases |parts|
  {
    if parts == [] {
      ProseIsSkipped(tail, "");
      assert tail + "" == tail && Bodies("") == [];
    } else {
      var p, rest := parts[0], Document(parts[1..], tail);
      assert p in parts && forall q | q in parts[1..] :: q in parts;
      BodiesRecovered(parts[1..], tail);
      FenceStart(p.body, rest);
      ProseIsSkipped(p.prose, Fence(p.body) + rest);
      FenceMatched(p.body, rest);
    }
  }

  /** The object a call is printed as. */
  function CallObject(name: string, args: Value): map<string, Value> {
    map["name" := Str(name), "arguments" := args]
  }

  /** `body` is JSON for the call, however it is laid out. */
  ghost predicate Encodes(env: Env, body: string, name: string, args: Value) {
    env.codec.decode(Trim(body)) == Some(Obj(CallObject(name, args)))
  }

  ghost predicate Callable(env: Env, name: string) {
    Trim(name) == name && name != "" && name in env.allowed && ChoiceAllows(env.choice, name)
  }

  /** A printed call is read back with the same arguments if and only if they are not null; null
      arguments come back as the object that is left when the name is taken away. */
  lemma CallReadBack(env: Env, body: string, name: string, args: Value)
    requires Callable(env, name) && Encodes(env, body, name, args)
    ensures CallIn(env, body) ==
              Some(Call(env.kindOf(name), name, if args == Null then Obj(map["arguments" := Null]) else args))
    ensures CallIn(env, body) == Some(Call(env.kindOf(name), name, args)) <==> args != Null
  {
    var m := CallObject(name, args);
    assert FirstString(m, NAME_KEYS) == name;
    assert m - {"name", "tool", "tool_name", "function"} == map["arguments" := args];
  }

  lemma {:induction false} CallsReadBack(env: Env, found: seq<Option<Call>>, calls: seq<Call>, index: nat)
    requires |found| == |calls|
    requires forall k | 0 <= k < |calls| :: found[k] == Some(calls[k])
    ensures var out := Numbered(env, found, index);
            && |out| == |calls|
            && forall k | 0 <= k < |calls| :: out[k] == Detected(env, calls[k], index + k)
    decreases |found|
  {
    if found != [] {
      CallsReadBack(env, found[1..], calls[1..], index + 1);
    }
  }

  /** Printing calls as fences between pieces of prose and reading the text gives the same calls, in
      order and numbered from 0. */
  lemma FencesRoundTrip(env: Env, parts: seq<Part>, tail: string, calls: seq<Call>)
    requires NoTag(tail) && forall p | p in parts :: PartOk(p)
    requires |parts| == |calls|
    requires forall k | 0 <= k < |calls| ::
               Callable(env, calls[k].name) && calls[k].kind == env.kindOf(calls[k].name) && calls[k].args != Null
               && Encodes(env, parts[k].body, calls[k].name, calls[k].args)
    ensures var out := FencedCalls(env, Document(parts, tail));
            && |out| == |calls|
            && forall k | 0 <= k < |calls| ::
                 && out[k].name == calls[k].name
                 && out[k].arguments == env.codec.encode(calls[k].args)
                 && out[k].kind == calls[k].kind
                 && out[k].id == env.callId(k, out[k].name, out[k].arguments)
  {
    BodiesRecovered(parts, tail);
    var bodies := Bodies(Document(parts, tail));
    forall k | 0 <= k < |calls| ensures CallIn(env, bodies[k]) == Some(calls[k]) {
      assert Trim(bodies[k]) == Trim(parts[k].body);
      CallReadBack(env, bodies[k], calls[k].name, calls[k].args);
    }
    CallsReadBack(env, Found(env, bodies), calls, 0);
  }

  /** The codec's own output is such a body. */
  lemma EncodedBody(env: Env, name: string, args: Value)
    requires Faithful(env.codec, Obj(CallObject(name, args)))
    ensures Encodes(env, env.codec.encode(Obj(CallObject(name, args))), name, args)
  {
    var v := Obj(CallObject(name, args));
    TrimFixed(env.codec.encode(v));
  }

  // ---------------------------------------------------------------------------------------------
  // Any text
  // ---------------------------------------------------------------------------------------------

  lemma TagIsFence(s: string)
    requires StartsWithTag(s)
    ensures At(s, 0, FENCE)
  {
    assert forall k | 0 <= k < 3 :: TAG[k] == '`' && Lower(s[k]) == '`' && s[k] == '`';
    assert s[0..3] == FENCE;
  }

  lemma {:induction false} BodyNeedsFence(s: string)
    requires Bodies(s) != []
    ensures Contains(s, FENCE)
    decreases |s|
  {
    if MatchFront(s).Some? {
      TagIsFence(s);
    } else {
      BodyNeedsFence(s[1..]);
      var i := Index(s[1..], FENCE);
      assert s[i + 1..i + 4] == s[1..][i..i + 3];
      assert At(s, i + 1, FENCE);
    }
  }

  lemma {:induction false} NumberedNames(env: Env, found: seq<Option<Call>>, index: nat)
    ensures |Numbered(env, found, index)| <= |found|
    ensures forall c | c in Numbered(env, found, index) ::
              exists k :: 0 <= k < |found| && found[k].Some? && found[k].value.name == c.name
    decreases |found|
  {
    if found != [] {
      NumberedNames(env, found[1..], index + 1);
      NumberedNames(env, found[1..], index);
      forall c | c in Numbered(env, found, index)
        ensures exists k :: 0 <= k < |found| && found[k].Some? && found[k].value.name == c.name
      {
        if !(found[0].Some? && found[0].value.name == c.name) {
          var k :| 0 <= k < |found[1..]| && found[1..][k].Some? && found[1..][k].value.name == c.name;
          assert found[k + 1].Some? && found[k + 1].value.name == c.name;
        }
      }
    }
  }

  /** `at` are the positions, in order and from `from` on, where a call was found. */
  ghost predicate FoundAt(found: seq<Option<Call>>, from: nat, at: seq<nat>) {
    && (forall i, j | 0 <= i < j < |at| :: at[i] < at[j])
    && (forall i | 0 <= i < |at| :: from <= at[i] < |found| && found[at[i]].Some?)
    && (forall k | from <= k < |found| && found[k].Some? :: k in at)
  }

  /** What was found at these positions, as calls with the numbers from `index` on in their ids. */
  ghost predicate NumberedFrom(env: Env, found: seq<Option<Call>>, at: seq<nat>, calls: seq<ToolCall>, index: nat) {
    && |calls| == |at|
    && forall i | 0 <= i < |at| ::
         && at[i] < |found| && found[at[i]].Some?
         && calls[i].kind == found[at[i]].value.kind && calls[i].name == found[at[i]].value.name
         && calls[i].arguments == env.codec.encode(found[at[i]].value.args)
         && calls[i].id == env.callId(index + i, calls[i].name, calls[i].arguments)
  }

  lemma OneMoreNumbered(env: Env, found: seq<Option<Call>>, from: nat, at: seq<nat>, calls: seq<ToolCall>, index: nat)
    requires from < |found| && found[from].Some? && NumberedFrom(env, found, at, calls, index + 1)
    ensures NumberedFrom(env, found, [from] + at, [Detected(env, found[from].value, index)] + calls, index)
  {
    var all := [Detected(env, found[from].value, index)] + calls;
    forall i | 1 <= i < |all| ensures all[i].id == env.callId(index + i, all[i].name, all[i].arguments) {
      assert all[i] == calls[i - 1] && index + 1 + (i - 1) == index + i;
    }
  }

  /** Every call that was found becomes one call, in order, with the next number in its id. */
  lemma {:induction false} NumberedExactly(env: Env, found: seq<Option<Call>>, from: nat, index: nat)
    returns (at: seq<nat>)
    requires from <= |found|
    ensures FoundAt(found, from, at) && NumberedFrom(env, found, at, Numbered(env, found[from..], index), index)
    decreases |found| - from
  {
    if from == |found| {
      at := [];
    } else {
      assert found[from..][0] == found[from] && found[from..][1..] == found[from + 1..];
      if found[from].Some? {
        var rest := NumberedExactly(env, found, from + 1, index + 1);
        OneMoreNumbered(env, found, from, rest, Numbered(env, found[from + 1..], index + 1), index);
        at := [from] + rest;
      } else {
        at := NumberedExactly(env, found, from + 1, index);
      }
    }
  }

  /** Whatever the text, this first step calls only tools that the request and its choice allow. */
  lemma CallsAreAllowed(env: Env, text: string)
    ensures |FencedCalls(env, text)| <= |Bodies(text)|
    ensures forall c | c in FencedCalls(env, text) :: c.name in env.allowed && ChoiceAllows(env.choice, c.name)
  {
    NumberedNames(env, Found(env, Bodies(text)), 0);
  }

  lemma CallsNeedFence(env: Env, text: string)
    requires FencedCalls(env, text) != []
    ensures Contains(text, FENCE)
  {
    CallsAreAllowed(env, text);
    BodyNeedsFence(text);
  }

  // ---------------------------------------------------------------------------------------------
  // The loops
  // ---------------------------------------------------------------------------------------------

  method FindFences(text: string) returns (bodies: seq<string>)
    ensures bodies == Bodies(text)
  {
    bodies := [];
    var rest := text;
    while rest != ""
      invariant bodies + Bodies(rest) == Bodies(text)
      decreases |rest|
    {
      var m := MatchFront(rest);
      if m.Some? {
        Assoc(bodies, [m.value.0], Bodies(m.value.1));
        bodies, rest := bodies + [m.value.0], m.value.1;
      } else {
        rest := rest[1..];
      }
    }
    assert bodies + [] == bodies;
  }

  method UnifiedFences(env: Env, text: string) returns (out: seq<ToolCall>)
    ensures out == FencedCalls(env, text)
    ensures forall c | c in out :: c.name in env.allowed && ChoiceAllows(env.choice, c.name)
  {
    var bodies := FindFences(text);
    out := [];
    ghost var found := Found(env, bodies);
    assert found[0..] == found;
    for k := 0 to |bodies|
      invariant out + Numbered(env, found[k..], |out|) == Numbered(env, found, 0)
    {
      assert found[k..][0] == found[k] && found[k..][1..] == found[k + 1..];
      var call := CallIn(env, bodies[k]);
      if call.None? {
        continue;
      }
      Assoc(out, [Detected(env, call.value, |out|)], Numbered(env, found[k + 1..], |out| + 1));
      out := out + [Detected(env, call.value, |out|)];
    }
    assert out + [] == out;
    CallsAreAllowed(env, text);
  }
}
