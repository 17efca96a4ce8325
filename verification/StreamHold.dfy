/** The streaming callback of /v1/chat/completions: text is re-emitted while the last eight runes
    are held back, so that neither a fence nor a JSON command is shown before it is recognised. */
module StreamHold {
  import opened Text

  const BASH := "```bash"
  const COMMAND := "\"command\""
  const HOLD: nat := 8

  datatype StreamEvent = StreamEvent(kind: string, text: string, toolName: string, arguments: string)

  datatype StreamedTool = StreamedTool(name: string, arguments: string)

  /** One `chat.completion.chunk`; only the first one carries the assistant role. */
  datatype Chunk = Chunk(role: bool, content: string)

  datatype State = State(text: string, pending: string, tools: seq<StreamedTool>, chunks: seq<Chunk>)

  const START := State("", "", [], [])

  function Emit(st: State, part: string): State {
    if part == "" then st else st.(chunks := st.chunks + [Chunk(st.chunks == [], part)])
  }

  /** How much of the waiting text `v` is released; `None` is the branch that releases nothing and
      waits for the end of the stream. */
  function Cut(v: string): (r: Option<nat>)
    ensures r.Some? ==> r.value <= |v|
  {
    if Contains(v, BASH) || Contains(v, COMMAND) then None
    else if Contains(v, FENCE) then Some(Index(v, FENCE))
    else if |v| > HOLD then Some(|v| - HOLD)
    else None
  }

  function OnText(st: State, t: string): State {
    var v := st.pending + t;
    var st' := st.(text := st.text + t, pending := v);
    match Cut(v)
    case None => st'
    case Some(cut) => Emit(st', v[..cut]).(pending := v[cut..])
  }

  /** An event that hands over a call of its own. */
  predicate IsTool(ev: StreamEvent) {
    ev.kind == "tool" && ev.toolName != "" && |ev.arguments| > 0
  }

  function Step(st: State, ev: StreamEvent): State {
    if IsTool(ev) then
      st.(tools := st.tools + [StreamedTool(ev.toolName, ev.arguments)])
    else if ev.kind != "text" || ev.text == "" then st
    else OnText(st, ev.text)
  }

  function Run(st: State, events: seq<StreamEvent>): State
    decreases |events|
  {
    if events == [] then st else Run(Step(st, events[0]), events[1..])
  }

  /** Everything the client has been sent so far. */
  function Sent(chunks: seq<Chunk>): string {
    if chunks == [] then "" else Sent(chunks[..|chunks| - 1]) + chunks[|chunks| - 1].content
  }

  /** The text of the text events, in order: what a reader that buffers everything would hold. */
  function Received(events: seq<StreamEvent>): string {
    if events == [] then ""
    else (if events[0].kind == "text" then events[0].text else "") + Received(events[1..])
  }

  /** The recovery step after the stream: an answer that only came in the final result is used. */
  function Recover(st: State, resText: string): State {
    if st.text == "" && Trim(resText) != "" then
      st.(text := st.text + resText, pending := st.pending + resText)
    else st
  }

  function CallsOf(st: State, parse: string -> seq<StreamedTool>): seq<StreamedTool> {
    if st.tools != [] then st.tools else parse(st.text)
  }

  function Finish(st: State, resText: string, parse: string -> seq<StreamedTool>): State {
    var st' := Recover(st, resText);
    if CallsOf(st', parse) == [] then Emit(st', st'.pending) else st'
  }

  /** The text of one whole answer. */
  function WholeText(events: seq<StreamEvent>, resText: string): string {
    if Received(events) == "" && Trim(resText) != "" then resText else Received(events)
  }

  // ---------------------------------------------------------------------------------------------
  // Markers
  // ---------------------------------------------------------------------------------------------

  predicate MarkerAt(s: string, j: int) {
    At(s, j, FENCE) || At(s, j, COMMAND)
  }

  ghost predicate HasMarker(s: string) {
    exists j :: MarkerAt(s, j)
  }

  /** `s` rules out that the word `m` starts at `j`, however `s` goes on. */
  ghost predicate RuledOut(s: string, j: nat, m: string) {
    exists k :: 0 <= k < |m| && j + k < |s| && s[j + k] != m[k]
  }

  /** No rune that has been sent can turn out to be the start of a marker. */
  ghost predicate Sealed(sent: nat, s: string) {
    forall j: nat | j < sent :: RuledOut(s, j, FENCE) && RuledOut(s, j, COMMAND)
  }

  ghost predicate Frozen(v: string) {
    Contains(v, BASH) || Contains(v, COMMAND) || HasPrefix(v, FENCE)
  }

  ghost predicate RolesOk(chunks: seq<Chunk>) {
    forall k | 0 <= k < |chunks| :: chunks[k].content != "" && (chunks[k].role <==> k == 0)
  }

  function Held(n: nat): nat {
    if n < HOLD then n else HOLD
  }

  /** What waits, given the text so far. */
  ghost predicate WaitingOk(text: string, pending: string) {
    && (HasMarker(text) ==> Frozen(pending))
    && (!HasMarker(text) ==> |pending| == Held(|text|))
  }

  /** How the text splits into what has been sent and what waits. */
  ghost predicate SplitOk(sent: string, pending: string, text: string) {
    sent + pending == text && Sealed(|sent|, text) && WaitingOk(text, pending)
  }

  ghost predicate Good(st: State) {
    RolesOk(st.chunks) && SplitOk(Sent(st.chunks), st.pending, st.text)
  }

  lemma RuledOutLater(s: string, x: string, j: nat, m: string)
    requires RuledOut(s, j, m)
    ensures RuledOut(s + x, j, m)
    ensures !At(s + x, j, m)
  {
    var k :| 0 <= k < |m| && j + k < |s| && s[j + k] != m[k];
    assert (s + x)[j + k] == s[j + k];
    if j + |m| <= |s + x| {
      assert (s + x)[j..j + |m|][k] != m[k];
    }
  }

  lemma MatchOrRuledOut(s: string, j: nat, m: string)
    requires j + |m| <= |s|
    ensures At(s, j, m) || RuledOut(s, j, m)
  {
    if !RuledOut(s, j, m) {
      forall k | 0 <= k < |m| ensures s[j..j + |m|][k] == m[k] {
        assert s[j..j + |m|][k] == s[j + k];
      }
      assert s[j..j + |m|] == m;
    }
  }

  lemma AtShift(a: string, v: string, j: nat, m: string)
    ensures At(a + v, |a| + j, m) <==> At(v, j, m)
  {
    if j + |m| <= |v| {
      assert (a + v)[|a| + j..|a| + j + |m|] == v[j..j + |m|];
    }
  }

  lemma AtPrefix(v: string, t: string, j: int, m: string)
    requires At(v, j, m)
    ensures At(v + t, j, m)
  {
    assert (v + t)[j..j + |m|] == v[j..j + |m|];
  }

  lemma ContainsGrows(v: string, t: string, m: string)
    requires Contains(v, m)
    ensures Contains(v + t, m)
  {
    AtPrefix(v, t, Index(v, m), m);
  }

  lemma BashIsFence(v: string)
    requires Contains(v, BASH)
    ensures Contains(v, FENCE)
  {
    var i := Index(v, BASH);
    assert BASH[..3] == FENCE;
    assert v[i..i + 3] == v[i..i + 7][..3];
    assert At(v, i, FENCE);
  }

  lemma NothingSealedIsMarker(sent: nat, s: string)
    requires Sealed(sent, s)
    ensures forall j: nat | j < sent :: !MarkerAt(s, j)
  {
    forall j: nat | j < sent ensures !MarkerAt(s, j) {
      RuledOutLater(s, "", j, FENCE);
      RuledOutLater(s, "", j, COMMAND);
      assert s + "" == s;
    }
  }

  /** Inside a text whose sent part is sealed, a marker lies in the waiting part. */
  lemma MarkerIsWaiting(a: string, v: string)
    requires Sealed(|a|, a + v)
    ensures HasMarker(a + v) <==> Contains(v, FENCE) || Contains(v, COMMAND)
  {
    NothingSealedIsMarker(|a|, a + v);
    if HasMarker(a + v) {
      var j :| MarkerAt(a + v, j);
      AtShift(a, v, j - |a|, FENCE);
      AtShift(a, v, j - |a|, COMMAND);
    }
    if Contains(v, FENCE) {
      AtShift(a, v, Index(v, FENCE), FENCE);
      assert MarkerAt(a + v, |a| + Index(v, FENCE));
    }
    if Contains(v, COMMAND) {
      AtShift(a, v, Index(v, COMMAND), COMMAND);
      assert MarkerAt(a + v, |a| + Index(v, COMMAND));
    }
  }

  /** Whatever `Cut` releases of the waiting text is sealed. */
  lemma CutSeals(v: string, j: nat)
    requires Cut(v).Some? && j < Cut(v).value
    ensures RuledOut(v, j, FENCE) && RuledOut(v, j, COMMAND)
  {
    if Contains(v, FENCE) {
      var i := Index(v, FENCE);
      MatchOrRuledOut(v, j, FENCE);
      assert v[i] == v[i..i + 3][0] == '`';
      if i - j < |COMMAND| {
        assert v[j + (i - j)] != COMMAND[i - j];
      } else {
        MatchOrRuledOut(v, j, COMMAND);
      }
    } else {
      MatchOrRuledOut(v, j, FENCE);
      MatchOrRuledOut(v, j, COMMAND);
    }
  }

  lemma RuledOutShift(a: string, v: string, j: nat, m: string)
    requires RuledOut(v, j, m)
    ensures RuledOut(a + v, |a| + j, m)
  {
    var k :| 0 <= k < |m| && j + k < |v| && v[j + k] != m[k];
    assert (a + v)[|a| + j + k] == v[j + k];
  }

  lemma SentOfEmit(st: State, part: string)
    requires RolesOk(st.chunks)
    ensures Sent(Emit(st, part).chunks) == Sent(st.chunks) + part
    ensures RolesOk(Emit(st, part).chunks)
  {
    if part != "" {
      var chunks := Emit(st, part).chunks;
      assert chunks[..|chunks| - 1] == st.chunks;
    }
  }

  function Released(v: string): (cut: nat)
    ensures cut <= |v|
  {
    if Cut(v).Some? then Cut(v).value else 0
  }

  lemma OnTextSplit(st: State, t: string)
    requires RolesOk(st.chunks)
    ensures var v := st.pending + t;
            var cut := Released(v);
            && Sent(OnText(st, t).chunks) == Sent(st.chunks) + v[..cut]
            && OnText(st, t).pending == v[cut..]
            && OnText(st, t).text == st.text + t
            && (cut == 0 ==> OnText(st, t).chunks == st.chunks)
            && RolesOk(OnText(st, t).chunks)
  {
    var v := st.pending + t;
    SentOfEmit(st.(text := st.text + t, pending := v), v[..Released(v)]);
  }

  lemma SealedGrows(a: string, v: string, s: string, t: string)
    requires a + v == s + t && Sealed(|a|, s)
    ensures Sealed(|a|, a + v) && Sealed(|a| + Released(v), a + v)
  {
    forall j: nat | j < |a| + Released(v) ensures RuledOut(a + v, j, FENCE) && RuledOut(a + v, j, COMMAND) {
      if j < |a| {
        RuledOutLater(s, t, j, FENCE);
        RuledOutLater(s, t, j, COMMAND);
      } else {
        CutSeals(v, j - |a|);
        RuledOutShift(a, v, j - |a|, FENCE);
        RuledOutShift(a, v, j - |a|, COMMAND);
      }
    }
  }

  lemma FrozenStays(v: string, t: string)
    requires Frozen(v)
    ensures Frozen(v + t) && Released(v + t) == 0
  {
    if Contains(v, BASH) { ContainsGrows(v, t, BASH); }
    if Contains(v, COMMAND) { ContainsGrows(v, t, COMMAND); }
    if HasPrefix(v, FENCE) { AtPrefix(v, t, 0, FENCE); }
  }

  /** The waiting part after a step: it starts at a marker or waits for the end, or it is short. */
  lemma WaitingAfterCut(v: string)
    ensures Contains(v, FENCE) || Contains(v, COMMAND) ==> Frozen(v[Released(v)..])
    ensures !Contains(v, FENCE) && !Contains(v, COMMAND) ==> Released(v) == |v| - Held(|v|)
  {
    var cut := Released(v);
    assert v[..cut] + v[cut..] == v && v[0..] == v;
    if Contains(v, BASH) { BashIsFence(v); }
    if Cut(v).Some? && Contains(v, FENCE) {
      AtShift(v[..cut], v[cut..], 0, FENCE);
    }
  }

  /** The waiting part stays right; `a` is what has been sent. */
  lemma WaitingStaysOk(a: string, pending: string, text: string, t: string)
    requires a + pending == text && Sealed(|a|, text) && WaitingOk(text, pending)
    ensures var v := pending + t; WaitingOk(text + t, v[Released(v)..])
    ensures HasMarker(text) ==> Released(pending + t) == 0
  {
    var v := pending + t;
    assert a + v == text + t;
    if HasMarker(text) {
      FrozenStays(pending, t);
      MarkerStays(text, t);
      assert v[0..] == v;
    } else {
      SealedGrows(a, v, text, t);
      MarkerIsWaiting(a, v);
      WaitingAfterCut(v);
    }
  }

  lemma SplitStaysOk(a: string, pending: string, text: string, t: string)
    requires SplitOk(a, pending, text)
    ensures var v := pending + t; SplitOk(a + v[..Released(v)], v[Released(v)..], text + t)
  {
    var v := pending + t;
    assert a + v == text + t;
    assert a + v[..Released(v)] + v[Released(v)..] == a + v;
    SealedGrows(a, v, text, t);
    WaitingStaysOk(a, pending, text, t);
  }

  lemma MarkerStays(s: string, t: string)
    requires HasMarker(s)
    ensures HasMarker(s + t)
  {
    var j :| MarkerAt(s, j);
    if At(s, j, FENCE) { AtPrefix(s, t, j, FENCE); } else { AtPrefix(s, t, j, COMMAND); }
    assert MarkerAt(s + t, j);
  }

  lemma StartIsGood()
    ensures Good(START)
  {
    assert !HasMarker("");
  }

  /** What every run keeps, from any good state. */
  lemma {:induction false} RunKeepsGood(st: State, events: seq<StreamEvent>)
    requires Good(st)
    ensures Good(Run(st, events))
    ensures HasMarker(st.text) ==> Run(st, events).chunks == st.chunks
    decreases |events|
  {
    if events != [] {
      if events[0].kind == "text" && events[0].text != "" {
        var t := events[0].text;
        OnTextSplit(st, t);
        SplitStaysOk(Sent(st.chunks), st.pending, st.text, t);
        WaitingStaysOk(Sent(st.chunks), st.pending, st.text, t);
        if HasMarker(st.text) {
          MarkerStays(st.text, t);
        }
      }
      RunKeepsGood(Step(st, events[0]), events[1..]);
    }
  }

  lemma {:induction false} RunText(st: State, events: seq<StreamEvent>)
    ensures Run(st, events).text == st.text + Received(events)
    decreases |events|
  {
    if events != [] {
      var st' := Step(st, events[0]);
      assert st'.text == st.text + if events[0].kind == "text" then events[0].text else "";
      RunText(st', events[1..]);
    }
  }

  /** Nothing that was sent is taken back. */
  lemma {:induction false} SentGrows(st: State, events: seq<StreamEvent>)
    requires RolesOk(st.chunks)
    ensures Sent(st.chunks) <= Sent(Run(st, events).chunks)
    decreases |events|
  {
    if events != [] {
      var st' := Step(st, events[0]);
      if events[0].kind == "text" && events[0].text != "" {
        OnTextSplit(st, events[0].text);
      }
      SentGrows(st', events[1..]);
    }
  }

  lemma {:induction false} RunAppend(st: State, a: seq<StreamEvent>, b: seq<StreamEvent>)
    ensures Run(st, a + b) == Run(Run(st, a), b)
    decreases |a|
  {
    if a == [] {
      assert a + b == b;
    } else {
      assert (a + b)[1..] == a[1..] + b;
      RunAppend(Step(st, a[0]), a[1..], b);
    }
  }

  /** Splitting a run: what the second half starts from and what the whole amounts to. */
  lemma {:induction false} RunInTwo(events: seq<StreamEvent>, later: seq<StreamEvent>)
    ensures var st := Run(START, events);
            && Good(st) && st.text == Received(events)
            && Run(START, events + later) == Run(st, later)
            && Good(Run(st, later))
            && Run(st, later).text == Received(events + later) == Received(events) + Received(later)
            && (HasMarker(st.text) ==> Run(st, later).chunks == st.chunks)
            && Sent(st.chunks) <= Sent(Run(st, later).chunks)
  {
    StartIsGood();
    RunKeepsGood(START, events);
    RunKeepsGood(Run(START, events), later);
    RunText(START, events);
    RunText(Run(START, events), later);
    RunText(START, events + later);
    RunAppend(START, events, later);
    SentGrows(Run(START, events), later);
  }

  // ---------------------------------------------------------------------------------------------
  // The callback itself
  // ---------------------------------------------------------------------------------------------

  class StreamCallback {
    var text: string
    var pending: string
    var streamedTools: seq<StreamedTool>
    var first: bool
    var written: seq<Chunk>

    ghost predicate Valid()
      reads this
    {
      first <==> written == []
    }

    ghost function Value(): State
      reads this
    {
      State(text, pending, streamedTools, written)
    }

    constructor ()
      ensures Valid() && Value() == START
    {
      text, pending, streamedTools, first, written := "", "", [], true, [];
    }

    method EmitText(part: string)
      requires Valid()
      modifies this
      ensures Valid() && Value() == Emit(old(Value()), part)
    {
      if part == "" {
        return;
      }
      var delta := Chunk(false, part);
      if first {
        delta := delta.(role := true);
        first := false;
      }
      written := written + [delta];
    }

    method OnEvent(ev: StreamEvent)
      requires Valid()
      modifies this
      ensures Valid() && Value() == Step(old(Value()), ev)
    {
      if ev.kind == "tool" && ev.toolName != "" && |ev.arguments| > 0 {
        streamedTools := streamedTools + [StreamedTool(ev.toolName, ev.arguments)];
        return;
      }
      if ev.kind != "text" || ev.text == "" {
        return;
      }
      text := text + ev.text;
      pending := pending + ev.text;
      var v := pending;
      if Contains(v, BASH) || Contains(v, COMMAND) {
        return;
      }
      var i := Index(v, FENCE);
      if i >= 0 {
        EmitText(v[..i]);
        pending := v[i..];
        return;
      }
      var runeCount := |v|;
      if runeCount > HOLD {
        var cut, seen := 0, 0;
        for k := 0 to |v|
          invariant seen == k <= runeCount - HOLD && cut == 0
          invariant text == old(text) + ev.text && pending == v && streamedTools == old(streamedTools)
          invariant written == old(written) && Valid()
        {
          if seen == runeCount - HOLD {
            cut := k;
            break;
          }
          seen := seen + 1;
        }
        EmitText(v[..cut]);
        pending := v[cut..];
      }
    }

    /** The end of the stream; the calls that are returned are written by `writeToolResponse`. */
    method Complete(resText: string, parse: string -> seq<StreamedTool>) returns (calls: seq<StreamedTool>)
      requires Valid()
      modifies this
      ensures Valid() && Value() == Finish(old(Value()), resText, parse)
      ensures calls == CallsOf(Recover(old(Value()), resText), parse)
    {
      if text == "" && Trim(resText) != "" {
        text := text + resText;
        pending := pending + resText;
      }
      calls := streamedTools;
      if |calls| == 0 {
        calls := parse(text);
      }
      if |calls| > 0 {
        return;
      }
      EmitText(pending);
    }
  }
}
