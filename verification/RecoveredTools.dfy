/** The whole of fencedToolCalls: after the `tool_call` fences come fences named after a tool, shell
    fences and single lines of JSON with a command. */
module RecoveredTools {
  import opened Text
  import opened Protocol
  import opened FencedTools
  import Stream = StreamHold
  import Delay = StreamDelay
  import Reading = StreamReading

  // ---------------------------------------------------------------------------------------------
  // The second fence pattern: name, \s*, newline, shortest body, newline, closing fence
  // ---------------------------------------------------------------------------------------------

  const CLOSE := "\n```"

  /** A fence with the name on its opening line. */
  datatype NamedFence = NamedFence(name: string, body: string)

  predicate NameChar(c: char) {
    'A' <= c <= 'Z' || 'a' <= c <= 'z' || '0' <= c <= '9' || c == '_' || c == '-'
  }

  function NameRun(s: string): (n: nat)
    ensures n <= |s|
    ensures forall k | 0 <= k < n :: NameChar(s[k])
    ensures n < |s| ==> !NameChar(s[n])
  {
    if s != "" && NameChar(s[0]) then 1 + NameRun(s[1..]) else 0
  }

  /** The body behind the last of the first `k` positions that is a newline with a closing fence after
      it, and the text behind that fence: the greedy white space gives back one newline at a time. */
  function BodyBefore(u: string, k: nat): (r: Option<(string, string)>)
    requires k <= |u|
    ensures r.Some? ==> |r.value.1| < |u|
  {
    if k == 0 then None
    else if u[k - 1] == '\n' && Index(u[k..], CLOSE) >= 0 then
      var v := u[k..];
      Some((v[..Index(v, CLOSE)], v[Index(v, CLOSE) + |CLOSE|..]))
    else BodyBefore(u, k - 1)
  }

  function MatchNamed(s: string): (r: Option<(NamedFence, string)>)
    ensures r.Some? ==> |r.value.1| < |s| && HasPrefix(s, FENCE)
    ensures r.Some? ==> r.value.0.name != "" && forall k | 0 <= k < |r.value.0.name| :: NameChar(r.value.0.name[k])
  {
    if !HasPrefix(s, FENCE) || NameRun(s[|FENCE|..]) == 0 then None
    else
      var t := s[|FENCE|..];
      var u := t[NameRun(t)..];
      match BodyBefore(u, SpaceRun(u))
      case None => None
      case Some(m) => Some((NamedFence(t[..NameRun(t)], m.0), m.1))
  }

  /** All matches, left to right and without overlap. */
  function NamedFences(s: string): seq<NamedFence>
    decreases |s|
  {
    match MatchNamed(s)
    case Some(m) => [m.0] + NamedFences(m.1)
    case None => if s == "" then [] else NamedFences(s[1..])
  }

  // ---------------------------------------------------------------------------------------------
  // From a named fence to a call
  // ---------------------------------------------------------------------------------------------

  const SHELLS := {"bash", "sh", "shell", "powershell", "cmd"}

  predicate IsUnified(name: string) {
    |name| == 9 && forall k | 0 <= k < 9 :: Lower(name[k]) == "tool_call"[k]
  }

  function ShellCall(args: Value): Call {
    Call("function", "bash", args)
  }

  /** The command, its timeout and its working directory, null where they are missing. */
  function ShellArguments(m: map<string, Value>): Value {
    Obj(map["command" := Field(m, "command"), "timeout" := Field(m, "timeout"), "workdir" := Field(m, "workdir")])
  }

  predicate HasCommand(m: map<string, Value>) {
    "command" in m && m["command"] != Str("")
  }

  /** A shell fence whose tool is not allowed becomes a bash call, whatever the request allows. */
  function ShellFence(raw: string, v: Value): Option<Call> {
    match v
    case Obj(m) => if HasCommand(m) then Some(ShellCall(ShellArguments(m))) else None
    case Null => Some(ShellCall(Obj(map["command" := Str(raw)])))
    case _ => None
  }

  /** The arguments of a body in the form of a unified call. */
  function InnerArguments(m: map<string, Value>): Value {
    if Field(m, "arguments") != Null then Field(m, "arguments") else Field(m, "args")
  }

  function ToolFence(env: Env, name: string, v: Value): Call {
    var inner := if v.Obj? then FirstString(v.fields, ["name", "tool", "tool_name"]) else "";
    if inner != "" && inner in env.allowed && InnerArguments(v.fields) != Null
    then Call(env.kindOf(inner), inner, InnerArguments(v.fields))
    else Call(env.kindOf(name), name, v)
  }

  function NamedCall(env: Env, f: NamedFence): Option<Call> {
    var raw := Trim(f.body);
    var v := if env.codec.decode(raw).Some? then env.codec.decode(raw).value else Null;
    if IsUnified(f.name) then None
    else if f.name !in env.allowed && f.name in SHELLS then ShellFence(raw, v)
    else if f.name !in env.allowed || !ChoiceAllows(env.choice, f.name) || v == Null then None
    else Some(ToolFence(env, f.name, v))
  }

  function NamedFound(env: Env, fences: seq<NamedFence>): (r: seq<Option<Call>>)
    ensures |r| == |fences|
    ensures forall k :: 0 <= k < |fences| ==> r[k] == NamedCall(env, fences[k])
  {
    seq(|fences|, k requires 0 <= k < |fences| => NamedCall(env, fences[k]))
  }

  function NamedCalls(env: Env, text: string): seq<ToolCall> {
    Numbered(env, NamedFound(env, NamedFences(text)), 0)
  }

  // ---------------------------------------------------------------------------------------------
  // A line of JSON
  // ---------------------------------------------------------------------------------------------

  /** The rest of the line that starts `s`, up to its last closing brace. */
  function BracedLine(s: string): string {
    var line := if Index(s, "\n") >= 0 then s[..Index(s, "\n")] else s;
    line[..AfterLast(line, '}')]
  }

  function BareCall(env: Env, s: string): Option<Call> {
    if s == "" || s[0] != '{' || BracedLine(s) == "" || !Contains(BracedLine(s), Stream.COMMAND) then None
    else
      match env.codec.decode(BracedLine(s))
      case Some(Obj(m)) => if HasCommand(m) then Some(ShellCall(ShellArguments(m))) else None
      case _ => None
  }

  /** The first position that starts such a line. */
  function FirstBare(env: Env, s: string): Option<Call> {
    if BareCall(env, s).Some? then BareCall(env, s)
    else if s == "" then None
    else FirstBare(env, s[1..])
  }

  function BareCalls(env: Env, text: string): seq<ToolCall> {
    match FirstBare(env, text)
    case Some(call) => [Detected(env, call, 0)]
    case None => []
  }

  /** Each step is tried only when the steps before it found nothing. */
  function Recovered(env: Env, text: string): seq<ToolCall> {
    if FencedCalls(env, text) != [] then FencedCalls(env, text)
    else if NamedCalls(env, text) != [] then NamedCalls(env, text)
    else BareCalls(env, text)
  }

  // ---------------------------------------------------------------------------------------------
  // What a fence and a line ask for
  // ---------------------------------------------------------------------------------------------

  /** The bash call of an object with a command: the command, the timeout and the working directory
      are taken over, as null where they are missing, and nothing else. */
  predicate AsksBash(m: map<string, Value>, c: Call) {
    && c.kind == "function" && c.name == "bash" && c.args.Obj?
    && c.args.fields.Keys == {"command", "timeout", "workdir"}
    && forall k | k in {"command", "timeout", "workdir"} :: c.args.fields[k] == if k in m then m[k] else Null
  }

  /** A shell fence whose shell is not an allowed tool. */
  predicate BareShell(env: Env, f: NamedFence) {
    f.name in {"bash", "sh", "shell", "powershell", "cmd"} && f.name !in env.allowed
  }

  /** Such a fence asks for bash: with the command of its JSON object, or with its whole text where it
      is not JSON (or null), and for nothing when it is JSON without a command. */
  lemma ShellFenceExactly(env: Env, f: NamedFence)
    requires BareShell(env, f)
    ensures var raw := Trim(f.body);
            var v := env.codec.decode(raw);
            && (v.None? || v == Some(Null) ==>
                  NamedCall(env, f) == Some(Call("function", "bash", Obj(map["command" := Str(raw)]))))
            && (v.Some? && v.value.Obj? ==>
                  var m := v.value.fields;
                  && (NamedCall(env, f).Some? <==> "command" in m && m["command"] != Str(""))
                  && (NamedCall(env, f).Some? ==> AsksBash(m, NamedCall(env, f).value)))
            && (v.Some? && v.value != Null && !v.value.Obj? ==> NamedCall(env, f).None?)
  {
  }

  /** The name that the body of a fence carries, "" if it carries none. */
  function NameInside(v: Value): string {
    if v.Obj? then FirstString(v.fields, ["name", "tool", "tool_name"]) else ""
  }

  /** The arguments that the body carries beside the name. */
  predicate CarriesArguments(v: Value, args: Value) {
    && v.Obj? && args != Null
    && if "arguments" in v.fields && v.fields["arguments"] != Null then args == v.fields["arguments"]
       else "args" in v.fields && args == v.fields["args"]
  }

  /** Any other named fence asks for something if and only if its name is an allowed tool that the
      choice admits and its body is JSON that is not null: for the allowed tool that the body names
      with the arguments it carries, or else for the tool of the fence with the whole body. */
  lemma ToolFenceExactly(env: Env, f: NamedFence)
    requires !BareShell(env, f) && !IsUnified(f.name)
    ensures var v := env.codec.decode(Trim(f.body));
            var call := NamedCall(env, f);
            && (call.Some? <==> f.name in env.allowed && ChoiceAllows(env.choice, f.name) && v.Some? && v.value != Null)
            && (call.Some? ==>
                  var inner := NameInside(v.value);
                  if inner != "" && inner in env.allowed && exists args :: CarriesArguments(v.value, args)
                  then call.value.name == inner && call.value.kind == env.kindOf(inner)
                       && CarriesArguments(v.value, call.value.args)
                  else call.value == Call(env.kindOf(f.name), f.name, v.value))
  {
    var v := env.codec.decode(Trim(f.body));
    if v.Some? && v.value.Obj? && InnerArguments(v.value.fields) != Null {
      assert CarriesArguments(v.value, InnerArguments(v.value.fields));
    }
  }

  /** There is no newline up to position `e`. */
  predicate OneLine(s: string, e: nat)
    requires e < |s|
  {
    forall k | 0 <= k <= e :: s[k] != '\n'
  }

  lemma PartHasNoNewline(line: string, s: string)
    requires line <= s && (Index(s, "\n") < 0 || |line| <= Index(s, "\n"))
    ensures !Contains(line, "\n")
  {
    forall i | 0 <= i <= |line| ensures !At(line, i, "\n") {
      assert !At(s, i, "\n") || i >= Index(s, "\n");
      if i < |line| {
        assert s[i..i + 1] == line[i..i + 1];
      }
    }
  }

  /** A line that starts with a brace: the text up to its last closing brace, when that is JSON for an
      object with a command, asks for bash. */
  lemma LineExactly(env: Env, s: string)
    ensures var line := BracedLine(s);
            && line <= s && !Contains(line, "\n")
            && (line != "" ==> line[|line| - 1] == '}')
            && (forall e | 0 <= e < |s| && s[e] == '}' && OneLine(s, e) :: e < |line|)
            && (BareCall(env, s).Some? <==>
                  && s != "" && s[0] == '{' && line != "" && Contains(line, Stream.COMMAND)
                  && env.codec.decode(line).Some? && env.codec.decode(line).value.Obj?
                  && var m := env.codec.decode(line).value.fields; "command" in m && m["command"] != Str(""))
            && (BareCall(env, s).Some? ==> AsksBash(env.codec.decode(line).value.fields, BareCall(env, s).value))
  {
    PartHasNoNewline(BracedLine(s), s);
    if Index(s, "\n") >= 0 {
      assert s[Index(s, "\n")..Index(s, "\n") + 1][0] == '\n';
    }
  }

  /** The first position that starts such a line decides; without one there is no call. */
  lemma {:induction false} BareScan(env: Env, s: string, k: nat)
    requires k <= |s| && forall i | 0 <= i < k :: BareCall(env, s[i..]).None?
    ensures BareCall(env, s[k..]).Some? ==> FirstBare(env, s) == BareCall(env, s[k..])
    ensures k == |s| ==> FirstBare(env, s) == None
    decreases k
  {
    assert s[0..] == s;
    if k > 0 {
      assert BareCall(env, s[0..]).None?;
      forall i | 0 <= i < k - 1 ensures BareCall(env, s[1..][i..]).None? {
        assert s[1..][i..] == s[i + 1..];
      }
      BareScan(env, s[1..], k - 1);
      assert s[1..][k - 1..] == s[k..];
    }
  }

  const DIGITS := "0123456789"

  lemma DigitChars(c: char)
    ensures c in DIGITS <==> '0' <= c <= '9'
  {
    if '0' <= c <= '9' {
      assert DIGITS[c as int - 48] == c;
    }
  }

  /** The characters of a fence name. */
  lemma NameCharExactly(c: char)
    ensures NameChar(c) <==> c in UPPER || c in LOWER || c in DIGITS || c == '_' || c == '-'
  {
    UpperLetters(c);
    LowerLetters(c);
    DigitChars(c);
  }

  function LowerAll(s: string): string {
    if s == "" then "" else [Lower(s[0])] + LowerAll(s[1..])
  }

  lemma {:induction false} LowerAllAt(s: string)
    ensures |LowerAll(s)| == |s| && forall k | 0 <= k < |s| :: LowerAll(s)[k] == Lower(s[k])
  {
    if s != "" {
      LowerAllAt(s[1..]);
    }
  }

  /** The name of a unified fence, in any case. */
  lemma UnifiedExactly(name: string)
    ensures IsUnified(name) <==> LowerAll(name) == "tool_call"
  {
    LowerAllAt(name);
  }

  /** The unified fences come first, then the named ones, then one line: the first step that finds
      something gives the whole result. */
  lemma StepsInOrder(env: Env, text: string)
    ensures FencedCalls(env, text) != [] ==> Recovered(env, text) == FencedCalls(env, text)
    ensures FencedCalls(env, text) == [] && NamedCalls(env, text) != [] ==>
              Recovered(env, text) == NamedCalls(env, text)
    ensures FencedCalls(env, text) == [] && NamedCalls(env, text) == [] ==>
              |Recovered(env, text)| == if FirstBare(env, text).Some? then 1 else 0
  {
  }

  /** Allowed calls printed as fences between prose come back from the whole recovery. */
  lemma PrintedIsRecovered(env: Env, parts: seq<Part>, tail: string, calls: seq<Call>)
    requires NoTag(tail) && (forall p | p in parts :: PartOk(p)) && |parts| == |calls| > 0
    requires forall k | 0 <= k < |calls| ::
               Callable(env, calls[k].name) && calls[k].kind == env.kindOf(calls[k].name) && calls[k].args != Null
               && Encodes(env, parts[k].body, calls[k].name, calls[k].args)
    ensures var out := Recovered(env, Document(parts, tail));
            && |out| == |calls|
            && forall k | 0 <= k < |calls| ::
                 out[k].name == calls[k].name && out[k].arguments == env.codec.encode(calls[k].args)
                 && out[k].kind == calls[k].kind
  {
    FencesRoundTrip(env, parts, tail, calls);
    StepsInOrder(env, Document(parts, tail));
  }

  // ---------------------------------------------------------------------------------------------
  // Every call needs a marker
  // ---------------------------------------------------------------------------------------------

  lemma {:induction false} NamedNeedsFence(s: string)
    requires NamedFences(s) != []
    ensures Contains(s, FENCE)
    decreases |s|
  {
    if MatchNamed(s).None? {
      NamedNeedsFence(s[1..]);
      ContainsLater(s, FENCE);
    }
  }

  lemma ContainsLater(s: string, m: string)
    requires s != "" && Contains(s[1..], m)
    ensures Contains(s, m)
  {
    var i := Index(s[1..], m);
    assert s[i + 1..i + 1 + |m|] == s[1..][i..i + |m|];
    assert At(s, i + 1, m);
  }

  lemma {:induction false} BareNeedsCommand(env: Env, s: string)
    requires FirstBare(env, s).Some?
    ensures Contains(s, Stream.COMMAND)
  {
    if BareCall(env, s).Some? {
      var head := BracedLine(s);
      var i := Index(head, Stream.COMMAND);
      assert head <= s && s[..|head|] == head;
      assert s[i..i + |Stream.COMMAND|] == head[i..i + |Stream.COMMAND|];
      assert At(s, i, Stream.COMMAND);
    } else {
      BareNeedsCommand(env, s[1..]);
      ContainsLater(s, Stream.COMMAND);
    }
  }

  /** Text that any of the steps turns into a call holds a fence or the word "command" in quotes. */
  lemma RecoveredNeedsMarker(env: Env, text: string)
    requires Recovered(env, text) != []
    ensures Stream.HasMarker(text)
  {
    if FencedCalls(env, text) != [] {
      CallsNeedFence(env, text);
      assert Stream.MarkerAt(text, Index(text, FENCE));
    } else if NamedCalls(env, text) != [] {
      NamedNeedsFence(text);
      assert Stream.MarkerAt(text, Index(text, FENCE));
    } else {
      BareNeedsCommand(env, text);
      assert Stream.MarkerAt(text, Index(text, Stream.COMMAND));
    }
  }

  // ---------------------------------------------------------------------------------------------
  // Whom the steps call
  // ---------------------------------------------------------------------------------------------

  ghost predicate MayCall(env: Env, name: string) {
    name in env.allowed || name == "bash"
  }

  lemma NamedCallName(env: Env, f: NamedFence)
    ensures NamedCall(env, f).Some? ==> MayCall(env, NamedCall(env, f).value.name)
  {
  }

  lemma {:induction false} BareName(env: Env, s: string)
    ensures FirstBare(env, s).Some? ==> FirstBare(env, s).value.name == "bash"
  {
    if BareCall(env, s).None? && s != "" {
      BareName(env, s[1..]);
    }
  }

  lemma NamedCallsNames(env: Env, text: string)
    ensures forall c | c in NamedCalls(env, text) :: MayCall(env, c.name)
  {
    var fences := NamedFences(text);
    var found := NamedFound(env, fences);
    NumberedNames(env, found, 0);
    forall k | 0 <= k < |fences| ensures found[k].Some? ==> MayCall(env, found[k].value.name) {
      NamedCallName(env, fences[k]);
    }
  }

  /** Whatever the text, a recovered call is for an allowed tool or for bash. */
  lemma RecoveredNames(env: Env, text: string)
    ensures forall c | c in Recovered(env, text) :: MayCall(env, c.name)
  {
    CallsAreAllowed(env, text);
    NamedCallsNames(env, text);
    BareName(env, text);
  }

  // ---------------------------------------------------------------------------------------------
  // One named fence
  // ---------------------------------------------------------------------------------------------

  /** A text that is one named fence. */
  function NamedText(name: string, body: string): string {
    FENCE + name + "\n" + body + CLOSE
  }

  /** A name that a fence of the later step can carry. */
  predicate FenceName(name: string) {
    name != "" && !IsUnified(name) && forall k | 0 <= k < |name| :: NameChar(name[k])
  }

  predicate FenceBody(body: string) {
    body != "" && Trimmed(body) && !Contains(body, FENCE)
  }

  lemma {:induction false} NameRunEnds(name: string, rest: string)
    requires forall k | 0 <= k < |name| :: NameChar(name[k])
    requires rest != "" && !NameChar(rest[0])
    ensures NameRun(name + rest) == |name|
  {
    if name == "" {
      assert name + rest == rest;
    } else {
      assert (name + rest)[0] == name[0] && (name + rest)[1..] == name[1..] + rest;
      NameRunEnds(name[1..], rest);
    }
  }

  lemma CommandCut(command: string)
    requires !Contains(command, FENCE)
    ensures Index(command + CLOSE, CLOSE) == |command|
  {
    var u := command + CLOSE;
    assert u[|command|..|command| + 4] == CLOSE;
    assert At(u, |command|, CLOSE);
    forall j | 0 <= j < |command| ensures !At(u, j, CLOSE) {
      if j + 4 <= |command| {
        assert u[j..j + 4][1..] == command[j + 1..j + 4];
        assert !At(command, j + 1, FENCE);
      } else if j + 4 <= |u| {
        assert u[j..j + 4][|command| - j] == u[|command|] == '\n';
        assert CLOSE[|command| - j] == '`';
      }
    }
  }

  /** The white space behind the name is the newline alone, and the body ends at the closing fence. */
  lemma CommandMatched(command: string)
    requires command != "" && !PatternSpace(command[0]) && !Contains(command, FENCE)
    ensures var u := "\n" + (command + CLOSE);
            SpaceRun(u) == 1 && BodyBefore(u, 1) == Some((command, ""))
  {
    var v := command + CLOSE;
    var u := "\n" + v;
    assert u[1..] == v && SpaceRun(v) == 0;
    CommandCut(command);
    assert v[..|command|] == command && v[|command| + 4..] == "";
  }

  lemma NamedMatched(name: string, body: string)
    requires FenceName(name) && FenceBody(body)
    ensures MatchNamed(NamedText(name, body)) == Some((NamedFence(name, body), ""))
  {
    var s, u := NamedText(name, body), "\n" + (body + CLOSE);
    assert s[0..3] == FENCE && s[3..] == name + u;
    NameRunEnds(name, u);
    assert (name + u)[..|name|] == name && (name + u)[|name|..] == u;
    CommandMatched(body);
  }

  lemma NotFence(s: string, p: nat, k: nat)
    requires p <= k < p + 3 && k < |s| && s[k] != '`'
    ensures !At(s, p, FENCE)
  {
    if p + 3 <= |s| {
      assert s[p..p + 3][k - p] == s[k] && FENCE[k - p] == '`';
    }
  }

  /** The only fence with room for a tag behind it is the opening one. */
  lemma OneOpening(name: string, body: string, p: nat)
    requires FenceName(name) && !Contains(body, FENCE)
    requires 0 < p && p + 10 <= |NamedText(name, body)|
    ensures !At(NamedText(name, body), p, FENCE)
  {
    var s, n := NamedText(name, body), 3 + |name| + 1;
    var end := n + |body|;
    assert s == FENCE + name + "\n" + (body + CLOSE);
    assert s[n - 1] == '\n' && s[end] == '\n' && s[n..end] == body;
    if p + 2 < n - 1 {
      assert s[p + 2] == name[p - 1] && NameChar(name[p - 1]);
      NotFence(s, p, p + 2);
    } else if p <= n - 1 {
      NotFence(s, p, n - 1);
    } else {
      assert s[p..p + 3] == s[n..end][p - n..p - n + 3];
      assert !At(body, p - n, FENCE);
    }
  }

  lemma NoFenceNoTag(s: string, p: nat)
    requires p + 10 <= |s| && !At(s, p, FENCE)
    ensures !StartsWithTag(s[p..])
  {
    assert s[p..][0..3] == s[p..p + 3];
    if StartsWithTag(s[p..]) {
      TagIsFence(s[p..]);
    }
  }

  lemma NewlineNoTag(s: string, k: nat)
    requires k < |TAG| && k < |s| && s[k] == '\n'
    ensures !StartsWithTag(s)
  {
    assert Lower(s[k]) != TAG[k];
  }

  /** Behind the opening fence there is no tag that white space follows. */
  lemma OpeningNoTag(name: string, body: string)
    requires FenceName(name)
    ensures MatchFront(NamedText(name, body)) == None
  {
    var s := NamedText(name, body);
    assert s[3 + |name|] == '\n' && forall k | 0 <= k < |name| :: s[3 + k] == name[k];
    if |name| < 9 {
      NewlineNoTag(s, 3 + |name|);
    } else if StartsWithTag(s) {
      forall k | 0 <= k < 9 ensures Lower(name[k]) == "tool_call"[k] {
        assert Lower(s[3 + k]) == TAG[3 + k];
      }
      assert |name| > 9 && NameChar(name[9]);
      assert s[|TAG|..][0] == name[9];
    }
  }

  lemma NoUnified(name: string, body: string)
    requires FenceName(name) && !Contains(body, FENCE)
    ensures Bodies(NamedText(name, body)) == []
  {
    var s := NamedText(name, body);
    OpeningNoTag(name, body);
    forall p | 0 <= p <= |s[1..]| ensures !StartsWithTag(s[1..][p..]) {
      assert s[1..][p..] == s[p + 1..];
      if p + 1 + 10 <= |s| {
        OneOpening(name, body, p + 1);
        NoFenceNoTag(s, p + 1);
      }
    }
    ProseIsSkipped(s[1..], "");
    assert s[1..] + "" == s[1..] && Bodies("") == [];
  }

  lemma NamedStarts(name: string, body: string)
    ensures Stream.MarkerAt(NamedText(name, body), 0)
  {
    assert NamedText(name, body)[0..3] == FENCE;
  }

  /** Such a text is recovered as what the one fence asks for. */
  lemma NamedRecovered(env: Env, name: string, body: string, call: Call)
    requires FenceName(name) && FenceBody(body) && NamedCall(env, NamedFence(name, body)) == Some(call)
    ensures Recovered(env, NamedText(name, body)) == [Detected(env, call, 0)]
  {
    NoUnified(name, body);
    assert FencedCalls(env, NamedText(name, body)) == [];
    NamedMatched(name, body);
    assert NamedFences("") == [];
    assert NamedFences(NamedText(name, body)) == [NamedFence(name, body)];
    OneNamed(env, NamedFence(name, body), call);
  }

  // ---------------------------------------------------------------------------------------------
  // The scan finds what the pattern describes
  // ---------------------------------------------------------------------------------------------

  /** `s` starts with a match of the pattern: a fence, a name, white space that ends in a newline, a
      body and the closing fence. */
  ghost predicate Pattern(s: string, name: string, gap: string, body: string, rest: string) {
    && name != "" && (forall k | 0 <= k < |name| :: NameChar(name[k]))
    && gap != "" && gap[|gap| - 1] == '\n' && (forall k | 0 <= k < |gap| :: PatternSpace(gap[k]))
    && s == FENCE + name + (gap + (body + CLOSE + rest))
  }

  /** The body can begin at `j`: behind a newline, and with a closing fence later on. */
  predicate SplitsAt(u: string, j: nat) {
    1 <= j <= |u| && u[j - 1] == '\n' && Index(u[j..], CLOSE) >= 0
  }

  /** The last such position up to `k`, or 0. */
  lemma {:induction false} LastSplit(u: string, k: nat) returns (j: nat)
    requires k <= |u|
    ensures j == 0 <==> BodyBefore(u, k).None?
    ensures j != 0 ==>
              && j <= k && SplitsAt(u, j)
              && BodyBefore(u, k) == Some((u[j..][..Index(u[j..], CLOSE)], u[j..][Index(u[j..], CLOSE) + |CLOSE|..]))
    ensures forall i | j < i <= k :: !SplitsAt(u, i)
  {
    if k == 0 {
      j := 0;
    } else if SplitsAt(u, k) {
      j := k;
    } else {
      j := LastSplit(u, k - 1);
    }
  }

  lemma {:induction false} SpaceRunAtLeast(gap: string, rest: string)
    requires forall k | 0 <= k < |gap| :: PatternSpace(gap[k])
    ensures SpaceRun(gap + rest) >= |gap|
  {
    if gap != "" {
      assert (gap + rest)[1..] == gap[1..] + rest;
      SpaceRunAtLeast(gap[1..], rest);
    }
  }

  /** Any match of the pattern has the name of the run and a gap that the scan considers. */
  lemma PatternConsidered(s: string, name: string, gap: string, body: string, rest: string)
    requires Pattern(s, name, gap, body, rest)
    ensures HasPrefix(s, FENCE) && NameRun(s[|FENCE|..]) == |name| && s[|FENCE|..][..|name|] == name
    ensures var u := s[|FENCE|..][|name|..];
            |gap| <= SpaceRun(u) && u[|gap| - 1] == '\n' && 0 <= Index(u[|gap|..], CLOSE) <= |body|
  {
    var tail := body + CLOSE + rest;
    var u := gap + tail;
    assert s == FENCE + (name + u);
    assert s[0..|FENCE|] == FENCE && s[|FENCE|..] == name + u;
    NameRunEnds(name, u);
    assert (name + u)[|name|..] == u && (name + u)[..|name|] == name;
    SpaceRunAtLeast(gap, tail);
    assert u[|gap|..] == tail && tail[|body|..|body| + |CLOSE|] == CLOSE;
    assert At(tail, |body|, CLOSE);
  }

  /** The match that the pattern language prefers: the longest gap and then the shortest body. */
  ghost predicate Preferred(s: string, name: string, gap: string, body: string, rest: string) {
    && Pattern(s, name, gap, body, rest)
    && forall n, g, b, r :: Pattern(s, n, g, b, r) ==> n == name && Longer(gap, body, g, b)
  }

  /** Splitting behind position `j` of the text behind the name gives a match of the pattern. */
  lemma SplitIsPattern(s: string, name: string, u: string, j: nat)
    requires name != "" && s == FENCE + name + u && forall k | 0 <= k < |name| :: NameChar(name[k])
    requires j <= SpaceRun(u) && SplitsAt(u, j)
    ensures var i := Index(u[j..], CLOSE);
            Pattern(s, name, u[..j], u[j..][..i], u[j..][i + |CLOSE|..])
  {
    var v := u[j..];
    var gap, body, rest := u[..j], v[..Index(v, CLOSE)], v[Index(v, CLOSE) + |CLOSE|..];
    SplitAtFirst(v, CLOSE);
    assert v == body + CLOSE + rest;
    assert u == gap + (body + CLOSE + rest);
    assert gap[|gap| - 1] == u[j - 1];
  }

  lemma OthersAreShorter(s: string, name: string, u: string, j: nat, n: string, g: string, b: string, r: string)
    requires HasPrefix(s, FENCE) && name == s[|FENCE|..][..NameRun(s[|FENCE|..])]
    requires u == s[|FENCE|..][NameRun(s[|FENCE|..])..] && j <= SpaceRun(u)
    requires SplitsAt(u, j) && forall i | j < i <= SpaceRun(u) :: !SplitsAt(u, i)
    requires Pattern(s, n, g, b, r)
    ensures n == name && Longer(u[..j], u[j..][..Index(u[j..], CLOSE)], g, b)
  {
    PatternConsidered(s, n, g, b, r);
    assert SplitsAt(u, |g|);
  }

  lemma FoundIsPreferred(s: string) returns (gap: string)
    requires MatchNamed(s).Some?
    ensures Preferred(s, MatchNamed(s).value.0.name, gap, MatchNamed(s).value.0.body, MatchNamed(s).value.1)
  {
    var f := MatchNamed(s).value.0;
    var t := s[|FENCE|..];
    var u := t[NameRun(t)..];
    assert s == FENCE + f.name + u;
    var j := LastSplit(u, SpaceRun(u));
    gap := u[..j];
    SplitIsPattern(s, f.name, u, j);
    forall n, g, b, r | Pattern(s, n, g, b, r) ensures n == f.name && Longer(gap, f.body, g, b) {
      OthersAreShorter(s, f.name, u, j, n, g, b, r);
    }
  }

  /** The scan finds a match at the start of a text if and only if there is one, and it finds the
      preferred one. */
  lemma MatchNamedExactly(s: string)
    ensures MatchNamed(s).None? ==> forall name, gap, body, rest :: !Pattern(s, name, gap, body, rest)
    ensures MatchNamed(s).Some? ==>
              var f, rest := MatchNamed(s).value.0, MatchNamed(s).value.1;
              exists gap :: Preferred(s, f.name, gap, f.body, rest)
  {
    forall n, g, b, r | Pattern(s, n, g, b, r) ensures MatchNamed(s).Some? {
      PatternConsidered(s, n, g, b, r);
      var u := s[|FENCE|..][|n|..];
      assert SplitsAt(u, |g|);
      var j := LastSplit(u, SpaceRun(u));
    }
    if MatchNamed(s).Some? {
      var gap := FoundIsPreferred(s);
    }
  }

  /** Scanning a text: the first position with a match gives the first fence, and the scan goes on
      behind it; without a match there is nothing. */
  lemma {:induction false} NamedScan(s: string, k: nat)
    requires k <= |s| && forall i | 0 <= i < k :: MatchNamed(s[i..]).None?
    ensures MatchNamed(s[k..]).Some? ==>
              NamedFences(s) == [MatchNamed(s[k..]).value.0] + NamedFences(MatchNamed(s[k..]).value.1)
    ensures k == |s| ==> NamedFences(s) == []
    decreases k
  {
    assert s[0..] == s;
    if k > 0 {
      assert MatchNamed(s[0..]).None?;
      forall i | 0 <= i < k - 1 ensures MatchNamed(s[1..][i..]).None? {
        assert s[1..][i..] == s[i + 1..];
      }
      NamedScan(s[1..], k - 1);
      assert s[1..][k - 1..] == s[k..];
    }
  }

  // ---------------------------------------------------------------------------------------------
  // What goes round the allowed list
  // ---------------------------------------------------------------------------------------------

  /** A command that is not JSON. */
  predicate Command(env: Env, command: string) {
    FenceBody(command) && (env.codec.decode(command).None? || env.codec.decode(command) == Some(Null))
  }

  predicate ShellInput(env: Env, shell: string, command: string) {
    shell in SHELLS && shell !in env.allowed && Command(env, command)
  }

  lemma ShellIsName(shell: string)
    requires shell in SHELLS
    ensures FenceName(shell)
  {
  }

  /** A shell fence becomes exactly one bash call with the command, although the request allows no such
      tool. */
  lemma ShellFenceIsCalled(env: Env, shell: string, command: string)
    requires ShellInput(env, shell, command)
    ensures Recovered(env, NamedText(shell, command)) ==
              [Detected(env, ShellCall(Obj(map["command" := Str(command)])), 0)]
  {
    ShellIsName(shell);
    TrimFixed(command);
    NamedRecovered(env, shell, command, ShellCall(Obj(map["command" := Str(command)])));
  }

  /** Only allowed tools are called, whatever the text, if and only if bash is one of them. */
  lemma OnlyAllowedExactly(env: Env, command: string)
    requires Command(env, command)
    ensures (forall text, c | c in Recovered(env, text) :: c.name in env.allowed) <==> "bash" in env.allowed
  {
    if "bash" in env.allowed {
      forall text, c | c in Recovered(env, text) ensures c.name in env.allowed {
        RecoveredNames(env, text);
      }
    } else {
      ShellFenceIsCalled(env, "bash", command);
      var c := Detected(env, ShellCall(Obj(map["command" := Str(command)])), 0);
      assert c in Recovered(env, NamedText("bash", command)) && c.name == "bash";
    }
  }

  // ---------------------------------------------------------------------------------------------
  // What goes round the tool choice
  // ---------------------------------------------------------------------------------------------

  /** A fence that the choice admits. */
  predicate OpenFence(env: Env, name: string) {
    FenceName(name) && name in env.allowed && ChoiceAllows(env.choice, name)
  }

  /** What is called where the choice has not been asked for the name itself: bash, or an allowed tool
      named in the body of a fence that the choice admits. */
  ghost predicate Unasked(env: Env, name: string) {
    name == "bash" || (name in env.allowed && exists fence :: OpenFence(env, fence))
  }

  lemma {:induction false} FencesAreNamed(s: string)
    ensures forall f | f in NamedFences(s) ::
              f.name != "" && forall k | 0 <= k < |f.name| :: NameChar(f.name[k])
    decreases |s|
  {
    if MatchNamed(s).Some? {
      FencesAreNamed(MatchNamed(s).value.1);
    } else if s != "" {
      FencesAreNamed(s[1..]);
    }
  }

  lemma NamedCallAsked(env: Env, f: NamedFence)
    requires f.name != "" && forall k | 0 <= k < |f.name| :: NameChar(f.name[k])
    ensures var call := NamedCall(env, f);
            call.Some? ==> ChoiceAllows(env.choice, call.value.name) || Unasked(env, call.value.name)
  {
    var call := NamedCall(env, f);
    if call.Some? && (f.name in env.allowed || f.name !in SHELLS) {
      assert OpenFence(env, f.name);
    }
  }

  /** A recovered call obeys the tool choice unless it is one of these. */
  lemma RecoveredAsked(env: Env, text: string)
    ensures forall c | c in Recovered(env, text) :: ChoiceAllows(env.choice, c.name) || Unasked(env, c.name)
  {
    CallsAreAllowed(env, text);
    var fences := NamedFences(text);
    var found := NamedFound(env, fences);
    FencesAreNamed(text);
    forall k | 0 <= k < |fences|
      ensures found[k].Some? ==> ChoiceAllows(env.choice, found[k].value.name) || Unasked(env, found[k].value.name)
    {
      NamedCallAsked(env, fences[k]);
    }
    NumberedNames(env, found, 0);
    BareName(env, text);
  }

  /** A body that is JSON for a call of `name`. */
  predicate InnerBody(env: Env, name: string, args: Value, body: string) {
    && FenceBody(body) && env.codec.decode(body) == Some(Obj(CallObject(name, args)))
    && args != Null && name in env.allowed && name != "" && Trim(name) == name
  }

  /** The inner name is called, although the choice is asked for the name of the fence only. */
  lemma InnerNameIsCalled(env: Env, fence: string, name: string, args: Value, body: string)
    requires OpenFence(env, fence) && InnerBody(env, name, args, body)
    ensures Recovered(env, NamedText(fence, body)) == [Detected(env, Call(env.kindOf(name), name, args), 0)]
  {
    TrimFixed(body);
    InnerNameRead(env, fence, name, args);
    NamedRecovered(env, fence, body, Call(env.kindOf(name), name, args));
  }

  lemma InnerNameRead(env: Env, fence: string, name: string, args: Value)
    requires name in env.allowed && name != "" && Trim(name) == name && args != Null
    ensures ToolFence(env, fence, Obj(CallObject(name, args))) == Call(env.kindOf(name), name, args)
  {
    assert FirstString(CallObject(name, args), ["name", "tool", "tool_name"]) == name;
  }

  /** One line of JSON with a command. */
  predicate CommandLine(env: Env, line: string) {
    && line != "" && line[0] == '{' && line[|line| - 1] == '}'
    && !Contains(line, "\n") && !Contains(line, FENCE) && Contains(line, Stream.COMMAND)
    && env.codec.decode(line).Some? && env.codec.decode(line).value.Obj?
    && HasCommand(env.codec.decode(line).value.fields)
  }

  /** Such a line is a bash call, whatever the request allows and chooses. */
  lemma CommandLineIsCalled(env: Env, line: string)
    requires CommandLine(env, line)
    ensures |Recovered(env, line)| == 1 && Recovered(env, line)[0].name == "bash"
    ensures exists c ::
              AsksBash(env.codec.decode(line).value.fields, c) && Recovered(env, line) == [Detected(env, c, 0)]
  {
    if FencedCalls(env, line) != [] {
      CallsNeedFence(env, line);
    }
    if NamedFences(line) != [] {
      NamedNeedsFence(line);
    }
    assert Index(line, "\n") < 0 && AfterLast(line, '}') == |line|;
    assert line[..|line|] == line && BracedLine(line) == line;
    LineExactly(env, line);
  }

  /** Every recovered call obeys the tool choice, whatever the text, if and only if the choice admits
      bash and, as soon as it admits one tool that a fence can name, all the others too. `bodies` are
      calls of the allowed tools as the codec reads them. */
  lemma ChoiceObeyedExactly(env: Env, line: string, bodies: map<string, (Value, string)>)
    requires CommandLine(env, line)
    requires forall name | name in env.allowed :: name in bodies
    requires forall name | name in env.allowed :: InnerBody(env, name, bodies[name].0, bodies[name].1)
    ensures (forall text, c | c in Recovered(env, text) :: ChoiceAllows(env.choice, c.name)) <==>
              forall name | Unasked(env, name) :: ChoiceAllows(env.choice, name)
  {
    if forall name | Unasked(env, name) :: ChoiceAllows(env.choice, name) {
      forall text, c | c in Recovered(env, text) ensures ChoiceAllows(env.choice, c.name) {
        RecoveredAsked(env, text);
      }
    }
    if forall text, c | c in Recovered(env, text) :: ChoiceAllows(env.choice, c.name) {
      forall name | Unasked(env, name) ensures ChoiceAllows(env.choice, name) {
        if name == "bash" {
          CommandLineIsCalled(env, line);
          assert Recovered(env, line)[0] in Recovered(env, line);
        } else {
          var fence :| OpenFence(env, fence);
          var args, body := bodies[name].0, bodies[name].1;
          InnerNameIsCalled(env, fence, name, args, body);
          assert Recovered(env, NamedText(fence, body))[0] in Recovered(env, NamedText(fence, body));
        }
      }
    }
  }

  lemma OneNamed(env: Env, f: NamedFence, call: Call)
    requires NamedCall(env, f) == Some(call)
    ensures Numbered(env, NamedFound(env, [f]), 0) == [Detected(env, call, 0)]
  {
    assert NamedFound(env, [f])[1..] == [];
  }

  // ---------------------------------------------------------------------------------------------
  // What the client is shown
  // ---------------------------------------------------------------------------------------------

  function AsStreamed(calls: seq<ToolCall>): (r: seq<Stream.StreamedTool>)
    ensures |r| == |calls|
  {
    seq(|calls|, k requires 0 <= k < |calls| => Stream.StreamedTool(calls[k].name, calls[k].arguments))
  }

  /** The parser as the streaming callback uses it. */
  function Parser(env: Env): string -> seq<Stream.StreamedTool> {
    t => AsStreamed(Recovered(env, t))
  }

  lemma ParserNeedsMarker(env: Env)
    ensures forall t :: Parser(env)(t) != [] ==> Stream.HasMarker(t)
  {
    forall t | Parser(env)(t) != [] ensures Stream.HasMarker(t) {
      RecoveredNeedsMarker(env, t);
    }
  }

  /** When a streamed answer turns out to hold calls of any form, the client has been shown at most
      the prose before the first fence or quoted "command". */
  lemma CallsAreNeverShown(env: Env, events: seq<Stream.StreamEvent>, resText: string)
    requires Stream.Run(Stream.START, events).tools == []
    ensures var whole := Stream.WholeText(events, resText);
            var sent := Stream.Sent(Stream.Finish(Stream.Run(Stream.START, events), resText, Parser(env)).chunks);
            Recovered(env, whole) != [] ==>
              && sent <= whole && Stream.HasMarker(whole)
              && forall j: nat | Stream.MarkerAt(whole, j) :: |sent| <= j
  {
    var st := Stream.Run(Stream.START, events);
    if Recovered(env, Stream.WholeText(events, resText)) != [] {
      Delay.SentPlusPendingIsReceived(events);
      Reading.RecoveredText(st, resText, events);
      ParserNeedsMarker(env);
      assert Stream.CallsOf(Stream.Recover(st, resText), Parser(env)) != [];
      Reading.RecoveredCallsStayHidden(events, resText, Parser(env));
    }
  }

  // ---------------------------------------------------------------------------------------------
  // The loops
  // ---------------------------------------------------------------------------------------------

  method FindNamedFences(text: string) returns (fences: seq<NamedFence>)
    ensures fences == NamedFences(text)
  {
    fences := [];
    var rest := text;
    while rest != ""
      invariant fences + NamedFences(rest) == NamedFences(text)
      decreases |rest|
    {
      var m := MatchNamed(rest);
      if m.Some? {
        Assoc(fences, [m.value.0], NamedFences(m.value.1));
        fences, rest := fences + [m.value.0], m.value.1;
      } else {
        rest := rest[1..];
      }
    }
    assert fences + [] == fences;
  }

  method CollectNamed(env: Env, fences: seq<NamedFence>) returns (out: seq<ToolCall>)
    ensures out == Numbered(env, NamedFound(env, fences), 0)
  {
    out := [];
    ghost var found := NamedFound(env, fences);
    assert found[0..] == found;
    for k := 0 to |fences|
      invariant out + Numbered(env, found[k..], |out|) == Numbered(env, found, 0)
    {
      assert found[k..][0] == found[k] && found[k..][1..] == found[k + 1..];
      var call := NamedCall(env, fences[k]);
      if call.None? {
        continue;
      }
      Assoc(out, [Detected(env, call.value, |out|)], Numbered(env, found[k + 1..], |out| + 1));
      out := out + [Detected(env, call.value, |out|)];
    }
    assert out + [] == out;
  }

  method FindBare(env: Env, text: string) returns (call: Option<Call>)
    ensures call == FirstBare(env, text)
  {
    assert text[0..] == text;
    for i := 0 to |text|
      invariant FirstBare(env, text[i..]) == FirstBare(env, text)
    {
      assert text[i..][1..] == text[i + 1..];
      call := BareCall(env, text[i..]);
      if call.Some? {
        return call;
      }
    }
    call := None;
  }

  method FencedToolCalls(env: Env, text: string) returns (out: seq<ToolCall>)
    ensures out == Recovered(env, text)
    ensures forall c | c in out :: MayCall(env, c.name)
  {
    RecoveredNames(env, text);
    out := UnifiedFences(env, text);
    if |out| > 0 {
      return out;
    }
    var fences := FindNamedFences(text);
    out := CollectNamed(env, fences);
    if |out| == 0 {
      var call := FindBare(env, text);
      if call.Some? {
        out := [Detected(env, call.value, 0)];
      }
    }
  }
}
