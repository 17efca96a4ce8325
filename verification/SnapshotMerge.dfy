/** ChatHub interleaves full message snapshots with small cursor tokens; the client merges both into
    one growing text and passes on only what has not been seen yet. */
module SnapshotMerge {
  import opened Text

  const CURSOR_LIMIT: nat := 8

  predicate PrivateUse(c: char) {
    '\U{E000}' <= c <= '\U{F8FF}'
  }

  /** Whether strings.ToLower turns the four runes into "cite". */
  predicate CiteAt(s: string, i: int) {
    && 0 <= i && i + 4 <= |s|
    && s[i] in {'c', 'C'} && s[i + 1] in {'i', 'I', '\U{130}'}
    && s[i + 2] in {'t', 'T'} && s[i + 3] in {'e', 'E'}
  }

  /** Text that cannot hold a citation marker. */
  predicate Plain(s: string) {
    && (forall i | 0 <= i < |s| :: !PrivateUse(s[i]))
    && (forall i | 0 <= i < |s| :: !CiteAt(s, i))
  }

  /** CleanM365Citations; `strip` stands for its regular expressions and the final trimming. */
  function Clean(strip: string -> string, text: string): string {
    if text == "" then "" else if Plain(text) then text else strip(text)
  }

  function NoSpace(s: string): string {
    if s == "" then "" else (if IsSpace(s[0]) then "" else [s[0]]) + NoSpace(s[1..])
  }

  /** dedupeSignature. */
  function Signature(strip: string -> string, text: string): string {
    NoSpace(Clean(strip, text))
  }

  /** What `incoming` adds to `streamed`; `None` is a frame that is skipped. */
  function UnseenDelta(strip: string -> string, streamed: string, incoming: string): Option<string> {
    var frame := Clean(strip, incoming);
    if incoming == "" || frame == "" then None
    else if streamed == "" then Some(frame)
    else if frame == streamed then None
    else if streamed <= frame then Some(frame[|streamed|..])
    else
      var cStream, cIn := Clean(strip, streamed), Clean(strip, frame);
      if cStream != "" && cStream <= cIn then
        if |cStream| == |cIn| then None else Some(cIn[|cStream|..])
      else if HasSuffix(streamed, frame) || HasSuffix(cStream, cIn) then None
      else
        var sSig, iSig := Signature(strip, streamed), Signature(strip, frame);
        if sSig != "" && iSig != "" && Contains(iSig, sSig) && |frame| >= |streamed| then None
        else if |frame| <= CURSOR_LIMIT then Some(frame)
        else None
  }

  /** The delta that one frame sends on. */
  function Delta(strip: string -> string, streamed: string, incoming: string): string {
    match UnseenDelta(strip, streamed, incoming)
    case None => ""
    case Some(d) => Clean(strip, d)
  }

  function Merge(strip: string -> string, streamed: string, incoming: string): string {
    streamed + Delta(strip, streamed, incoming)
  }

  function MergeAll(strip: string -> string, streamed: string, frames: seq<string>): string
    decreases |frames|
  {
    if frames == [] then streamed else MergeAll(strip, Merge(strip, streamed, frames[0]), frames[1..])
  }

  lemma PlainPart(s: string, i: nat, j: nat)
    requires Plain(s) && i <= j <= |s|
    ensures Plain(s[i..j])
  {
    var part := s[i..j];
    forall k | 0 <= k < |part| ensures !PrivateUse(part[k]) && !CiteAt(part, k) {
      assert part[k] == s[i + k];
      if k + 4 <= |part| {
        assert part[k + 1] == s[i + k + 1] && part[k + 2] == s[i + k + 2] && part[k + 3] == s[i + k + 3];
        assert !CiteAt(s, i + k);
      }
    }
  }

  /** A frame that claims to restate everything that was streamed. */
  predicate Restates(streamed: string, frame: string) {
    NoSpace(streamed) != "" && Contains(NoSpace(frame), NoSpace(streamed)) && |frame| >= |streamed|
  }

  /** On citation-free text the merge is this three-way choice. */
  lemma MergeOfPlain(strip: string -> string, s: string, frame: string)
    requires Plain(s) && Plain(frame)
    ensures Merge(strip, s, frame) ==
              if s <= frame then frame
              else if HasSuffix(s, frame) || Restates(s, frame) || |frame| > 8 then s
              else s + frame
  {
    if s <= frame {
      PlainPart(frame, |s|, |frame|);
      assert frame[|s|..|frame|] == frame[|s|..];
      assert s + frame[|s|..] == frame;
      assert "" + frame == frame && s + "" == s;
    } else {
      assert s + "" == s;
      if frame == "" { assert HasSuffix(s, ""); }
      if Contains(NoSpace(frame), NoSpace(s)) && NoSpace(frame) == "" {
        assert NoSpace(s) == "";
      }
    }
  }

  /** Cleaning leaves citation-free text alone, and empty text in particular. */
  lemma CleanExactly(strip: string -> string, text: string)
    ensures Plain(text) ==> Clean(strip, text) == text
    ensures !Plain(text) ==> Clean(strip, text) == strip(text)
    ensures Clean(strip, "") == ""
  {
    assert Plain("");
  }

  /** With citations, once cleaning has nothing left to do: the merge is the same three-way choice,
      made on the cleaned frame. */
  lemma MergeOfCleaned(strip: string -> string, s: string, frame: string)
    requires var c := Clean(strip, frame);
             Clean(strip, s) == s && Clean(strip, c) == c && (s <= c ==> Clean(strip, c[|s|..]) == c[|s|..])
    ensures var c := Clean(strip, frame);
            Merge(strip, s, frame) ==
              if s <= c then c
              else if HasSuffix(s, c) || Restates(s, c) || |c| > 8 then s
              else s + c
  {
    var c := Clean(strip, frame);
    CleanExactly(strip, frame);
    if s <= c {
      assert s + c[|s|..] == c && "" + c == c && s + "" == s;
    } else {
      assert s + "" == s;
      if c == "" { assert HasSuffix(s, ""); }
      if Contains(NoSpace(c), NoSpace(s)) && NoSpace(c) == "" {
        assert NoSpace(s) == "";
      }
    }
  }

  /** A streamed text that still holds a citation: a frame whose cleaned form extends the cleaned text
      adds exactly what is missing from it, also when it does not extend the text itself. */
  lemma CaughtUpByCleanText(strip: string -> string, s: string, frame: string)
    requires s != "" && Clean(strip, s) != "" && !(s <= Clean(strip, frame))
    requires Clean(strip, s) <= Clean(strip, Clean(strip, frame)) && Clean(strip, frame) != "" && frame != ""
    ensures var cleaned, target := Clean(strip, s), Clean(strip, Clean(strip, frame));
            match UnseenDelta(strip, s, frame)
            case None => cleaned == target
            case Some(d) => d != "" && cleaned + d == target
  {
  }

  // ---------------------------------------------------------------------------------------------
  // Snapshots
  // ---------------------------------------------------------------------------------------------

  /** A stale snapshot, one that is a prefix of the streamed text, is ignored if and only if it has
      more than eight runes or happens to end the streamed text as well; otherwise it is taken for a
      cursor token and appended again. */
  lemma StaleSnapshotIgnoredExactly(strip: string -> string, s: string, frame: string)
    requires Plain(s) && frame <= s
    ensures Merge(strip, s, frame) == s <==> |frame| > 8 || HasSuffix(s, frame)
    ensures Merge(strip, s, frame) == s || Merge(strip, s, frame) == s + frame
  {
    PlainPart(s, 0, |frame|);
    assert s[0..|frame|] == frame;
    MergeOfPlain(strip, s, frame);
    if s <= frame {
      assert s == frame && HasSuffix(s, s);
    }
    if frame == "" { assert HasSuffix(s, ""); }
  }

  lemma NoCiteLetter(s: string)
    requires forall i | 0 <= i < |s| :: !PrivateUse(s[i]) && s[i] != 'c' && s[i] != 'C'
    ensures Plain(s)
  {
  }

  /** A short snapshot of a text that has grown since is an input on which the answer is doubled. */
  lemma ShortStaleSnapshotIsAppended(strip: string -> string)
    ensures Merge(strip, "Hello world", "Hello") == "Hello world" + "Hello"
  {
    var s, f := "Hello world", "Hello";
    NoCiteLetter(s);
    StaleSnapshotIgnoredExactly(strip, s, f);
    assert s[6..] == "world" && "world"[0] != f[0];
  }

  /** A frame of more than eight runes is taken over exactly when it extends what was streamed, and
      leaves the streamed text unchanged otherwise. */
  lemma LongFrameExactly(strip: string -> string, s: string, frame: string)
    requires Plain(s) && Plain(frame) && |frame| > 8
    ensures Merge(strip, s, frame) == if s <= frame then frame else s
  {
    MergeOfPlain(strip, s, frame);
  }

  /** Snapshots of one text, in any order and with repeats, converge to the longest one seen. */
  lemma {:induction false} SnapshotsConverge(strip: string -> string, s: string, frames: seq<string>, text: string)
    requires Plain(text) && s <= text
    requires forall f | f in frames :: f <= text && |f| > 8
    ensures var r := MergeAll(strip, s, frames);
            && r <= text && s <= r
            && (r == s || r in frames)
            && (forall f | f in frames :: f <= r)
    decreases |frames|
  {
    if frames != [] {
      var f := frames[0];
      assert f in frames && text[0..|f|] == f && text[0..|s|] == s;
      PlainPart(text, 0, |f|);
      PlainPart(text, 0, |s|);
      LongFrameExactly(strip, s, f);
      var s' := Merge(strip, s, f);
      assert forall g | g in frames[1..] :: g in frames;
      SnapshotsConverge(strip, s', frames[1..], text);
      var r := MergeAll(strip, s', frames[1..]);
      forall g | g in frames ensures g <= r {
        assert g == f || g in frames[1..];
        assert f <= s';
      }
    }
  }

  // ---------------------------------------------------------------------------------------------
  // Snapshots and cursor tokens mixed
  // ---------------------------------------------------------------------------------------------

  datatype Frame = Snapshot(text: string) | Cursor(token: string)

  function Upstream(text: string, f: Frame): string {
    match f
    case Snapshot(t) => t
    case Cursor(t) => text + t
  }

  function Payload(f: Frame): string {
    match f
    case Snapshot(t) => t
    case Cursor(t) => t
  }

  function Payloads(frames: seq<Frame>): seq<string> {
    if frames == [] then [] else [Payload(frames[0])] + Payloads(frames[1..])
  }

  function UpstreamAll(text: string, frames: seq<Frame>): string
    decreases |frames|
  {
    if frames == [] then text else UpstreamAll(Upstream(text, frames[0]), frames[1..])
  }

  /** Which tokens are appended: any at the start of the stream, and later short ones that the text
      does not end with and that cannot be taken for a snapshot. */
  predicate Appends(s: string, token: string) {
    || token == "" || s == ""
    || (|token| <= 8 && !HasSuffix(s, token) && !(s <= token) && !Restates(s, token))
  }

  /** A cursor token is applied if and only if it is one of these; once more than eight runes have
      been streamed, that it has at most eight runes and the text does not end with it is enough. */
  lemma CursorAppliedExactly(strip: string -> string, s: string, token: string)
    requires Plain(s) && Plain(token)
    ensures Merge(strip, s, token) == s + token <==> Appends(s, token)
    ensures |s| > 8 && token != "" ==>
              (Appends(s, token) <==> |token| <= 8 && !HasSuffix(s, token))
  {
    MergeOfPlain(strip, s, token);
    assert |s + token| == |s| + |token|;
    if s == "" || token == "" {
      assert "" + token == token && s + "" == s;
      assert HasSuffix(s, "");
    }
  }

  /** What ChatHub may send next while its text is `text`. */
  ghost predicate Sendable(text: string, f: Frame) {
    match f
    case Snapshot(t) => text <= t
    case Cursor(t) => Appends(text, t)
  }

  /** One frame is merged as ChatHub means it if and only if it is such a frame. */
  lemma FrameExactly(strip: string -> string, text: string, f: Frame)
    requires Plain(text) && Plain(Payload(f))
    ensures Merge(strip, text, Payload(f)) == Upstream(text, f) <==> Sendable(text, f)
  {
    match f
    case Snapshot(t) =>
      MergeOfPlain(strip, text, t);
      assert |text + t| == |text| + |t|;
    case Cursor(t) => CursorAppliedExactly(strip, text, t);
  }

  ghost predicate Trace(text: string, frames: seq<Frame>)
    decreases |frames|
  {
    && Plain(text)
    && (frames == [] || (Sendable(text, frames[0]) && Trace(Upstream(text, frames[0]), frames[1..])))
  }

  lemma TokenOfPlain(text: string, token: string)
    requires Plain(text + token)
    ensures Plain(token)
  {
    PlainPart(text + token, |text|, |text + token|);
    assert (text + token)[|text|..|text + token|] == token;
  }

  /** The merged text is the upstream text after every frame of such a trace, from the start of the
      stream on, however snapshots and tokens are mixed. */
  lemma {:induction false} MixedTraceFollowsUpstream(strip: string -> string, text: string, frames: seq<Frame>)
    requires Trace(text, frames)
    ensures MergeAll(strip, text, Payloads(frames)) == UpstreamAll(text, frames)
    decreases |frames|
  {
    if frames != [] {
      var next := Upstream(text, frames[0]);
      if frames[0].Cursor? {
        TokenOfPlain(text, frames[0].token);
      }
      FrameExactly(strip, text, frames[0]);
      assert Payloads(frames)[1..] == Payloads(frames[1..]);
      MixedTraceFollowsUpstream(strip, next, frames[1..]);
    }
  }

  lemma {:induction false} TracePrefix(text: string, frames: seq<Frame>, k: nat)
    requires Trace(text, frames) && k <= |frames|
    ensures Trace(text, frames[..k])
    decreases k
  {
    if k > 0 {
      TracePrefix(Upstream(text, frames[0]), frames[1..], k - 1);
      assert frames[..k][0] == frames[0] && frames[..k][1..] == frames[1..][..k - 1];
    }
  }

  /** Nothing in the run can hold a citation. */
  ghost predicate PlainRun(text: string, frames: seq<Frame>)
    decreases |frames|
  {
    && Plain(text)
    && (frames == [] || (Plain(Payload(frames[0])) && PlainRun(Upstream(text, frames[0]), frames[1..])))
  }

  /** The two texts agree after the first `k` frames. */
  ghost predicate Agree(strip: string -> string, text: string, frames: seq<Frame>, k: nat)
    requires k <= |frames|
  {
    MergeAll(strip, text, Payloads(frames[..k])) == UpstreamAll(text, frames[..k])
  }

  lemma AgreeFront(strip: string -> string, text: string, frames: seq<Frame>, k: nat)
    requires k < |frames| && Merge(strip, text, Payload(frames[0])) == Upstream(text, frames[0])
    ensures Agree(strip, text, frames, k + 1) <==> Agree(strip, Upstream(text, frames[0]), frames[1..], k)
  {
    var front := frames[..k + 1];
    assert front[0] == frames[0] && front[1..] == frames[1..][..k];
    assert Payloads(front)[0] == Payload(frames[0]) && Payloads(front)[1..] == Payloads(frames[1..][..k]);
  }

  /** On citation-free runs the merged text is the upstream text after every single frame if and only
      if the run is such a trace. */
  lemma {:induction false} EveryFrameFollowsUpstream(strip: string -> string, text: string, frames: seq<Frame>)
    requires PlainRun(text, frames)
    ensures (forall k | 0 <= k <= |frames| :: Agree(strip, text, frames, k)) <==> Trace(text, frames)
    decreases |frames|
  {
    if Trace(text, frames) {
      forall k | 0 <= k <= |frames| ensures Agree(strip, text, frames, k) {
        TracePrefix(text, frames, k);
        MixedTraceFollowsUpstream(strip, text, frames[..k]);
      }
    }
    if frames != [] && forall k | 0 <= k <= |frames| :: Agree(strip, text, frames, k) {
      var next, rest := Upstream(text, frames[0]), frames[1..];
      assert Agree(strip, text, frames, 1) && frames[..1] == [frames[0]];
      assert Payloads([frames[0]]) == [Payload(frames[0])];
      OneFrame(strip, text, frames[0]);
      FrameExactly(strip, text, frames[0]);
      forall k | 0 <= k <= |rest| ensures Agree(strip, next, rest, k) {
        assert Agree(strip, text, frames, k + 1);
        AgreeFront(strip, text, frames, k);
      }
      EveryFrameFollowsUpstream(strip, next, rest);
    }
  }

  lemma OneFrame(strip: string -> string, text: string, f: Frame)
    ensures MergeAll(strip, text, [Payload(f)]) == Merge(strip, text, Payload(f))
    ensures UpstreamAll(text, [f]) == Upstream(text, f)
  {
    assert [Payload(f)][1..] == [] && [f][1..] == [];
  }

  // ---------------------------------------------------------------------------------------------
  // The frame loop
  // ---------------------------------------------------------------------------------------------

  datatype BotMessage = BotMessage(author: string, text: string, messageType: string, contentType: string)

  /** One argument of an update; a missing cursor text is empty. */
  datatype Update = Update(writeAtCursor: string, messages: seq<BotMessage>)

  predicate FromTool(m: BotMessage) {
    m.messageType == "Progress" || m.contentType in {"SearchResults", "Code", "ToolCall"}
  }

  /** An update with a message of a tool: its cursor text is not part of the answer. */
  predicate IsToolFrame(u: Update) {
    exists k :: 0 <= k < |u.messages| && FromTool(u.messages[k])
  }

  function Snapshots(messages: seq<BotMessage>): seq<string> {
    if messages == [] then []
    else
      var m := messages[0];
      (if m.author == "bot" && m.messageType == "" && m.text != "" then [m.text] else []) + Snapshots(messages[1..])
  }

  /** The texts of an update that reach the merge, in order. */
  function FramesOf(u: Update): seq<string> {
    (if u.writeAtCursor != "" && !IsToolFrame(u) then [u.writeAtCursor] else []) + Snapshots(u.messages)
  }

  /** A message whose text is a snapshot of the answer. */
  predicate IsAnswer(m: BotMessage) {
    m.author == "bot" && m.messageType == "" && m.text != ""
  }

  /** `at` are the positions of the answer messages from `from` on, in order. */
  ghost predicate AnswersAt(messages: seq<BotMessage>, from: nat, at: seq<nat>) {
    && (forall i, j | 0 <= i < j < |at| :: at[i] < at[j])
    && (forall i | 0 <= i < |at| :: from <= at[i] < |messages| && IsAnswer(messages[at[i]]))
    && (forall k | from <= k < |messages| && IsAnswer(messages[k]) :: k in at)
  }

  /** The texts at these positions. */
  ghost predicate TextsAt(messages: seq<BotMessage>, at: seq<nat>, texts: seq<string>) {
    |texts| == |at| && forall i | 0 <= i < |at| :: at[i] < |messages| && texts[i] == messages[at[i]].text
  }

  lemma OneMoreAnswer(messages: seq<BotMessage>, from: nat, at: seq<nat>, texts: seq<string>)
    requires from < |messages| && AnswersAt(messages, from + 1, at) && TextsAt(messages, at, texts)
    ensures IsAnswer(messages[from]) ==>
              AnswersAt(messages, from, [from] + at) && TextsAt(messages, [from] + at, [messages[from].text] + texts)
    ensures !IsAnswer(messages[from]) ==> AnswersAt(messages, from, at)
  {
    var more := [from] + at;
    forall k | k in at ensures k in more {
      var i :| 0 <= i < |at| && at[i] == k;
      assert more[i + 1] == k;
    }
    assert more[0] == from;
  }

  lemma {:induction false} SnapshotsExactly(messages: seq<BotMessage>, from: nat) returns (at: seq<nat>)
    requires from <= |messages|
    ensures AnswersAt(messages, from, at) && TextsAt(messages, at, Snapshots(messages[from..]))
    decreases |messages| - from
  {
    if from == |messages| {
      at := [];
    } else {
      var rest := SnapshotsExactly(messages, from + 1);
      assert messages[from..][0] == messages[from] && messages[from..][1..] == messages[from + 1..];
      OneMoreAnswer(messages, from, rest, Snapshots(messages[from + 1..]));
      at := if IsAnswer(messages[from]) then [from] + rest else rest;
      assert !IsAnswer(messages[from]) ==> Snapshots(messages[from..]) == Snapshots(messages[from + 1..]);
    }
  }

  /** The texts of an update that are merged: its cursor text, unless that is empty or a message shows
      progress, search results, code or a tool call, and then the text of every answer message of the
      bot, in order. */
  lemma FramesExactly(u: Update) returns (at: seq<nat>)
    ensures AnswersAt(u.messages, 0, at)
    ensures var tool := exists m :: m in u.messages &&
                          (m.messageType == "Progress" || m.contentType == "SearchResults" || m.contentType == "Code"
                           || m.contentType == "ToolCall");
            var c := if u.writeAtCursor == "" || tool then 0 else 1;
            && |FramesOf(u)| == c + |at|
            && (c == 1 ==> FramesOf(u)[0] == u.writeAtCursor)
            && forall i | 0 <= i < |at| :: FramesOf(u)[c + i] == u.messages[at[i]].text
  {
    at := SnapshotsExactly(u.messages, 0);
    assert u.messages[0..] == u.messages;
    if m :| m in u.messages && FromTool(m) {
      var k :| 0 <= k < |u.messages| && u.messages[k] == m;
    }
  }

  function AllFrames(updates: seq<Update>): seq<string> {
    if updates == [] then [] else FramesOf(updates[0]) + AllFrames(updates[1..])
  }

  lemma {:induction false} MergeAllAppend(strip: string -> string, s: string, a: seq<string>, b: seq<string>)
    ensures MergeAll(strip, s, a + b) == MergeAll(strip, MergeAll(strip, s, a), b)
    decreases |a|
  {
    if a == [] {
      assert a + b == b;
    } else {
      assert (a + b)[0] == a[0] && (a + b)[1..] == a[1..] + b;
      MergeAllAppend(strip, Merge(strip, s, a[0]), a[1..], b);
    }
  }

  function Joined(deltas: seq<string>): string {
    if deltas == [] then "" else Joined(deltas[..|deltas| - 1]) + deltas[|deltas| - 1]
  }

  class ChatStream {
    const strip: string -> string
    var streamedText: string
    var deltas: seq<string>

    /** What was passed on is what was accumulated, and no delta is empty. */
    ghost predicate Valid()
      reads this
    {
      Joined(deltas) == streamedText && "" !in deltas
    }

    constructor (strip: string -> string)
      ensures Valid() && streamedText == "" && deltas == [] && this.strip == strip
    {
      this.strip := strip;
      streamedText, deltas := "", [];
    }

    method EmitDelta(d: string)
      requires Valid()
      modifies this
      ensures Valid() && streamedText == old(streamedText) + Clean(strip, d)
      ensures deltas == old(deltas) + if Clean(strip, d) == "" then [] else [Clean(strip, d)]
    {
      var cleaned := Clean(strip, d);
      if cleaned == "" {
        assert streamedText + "" == streamedText;
        return;
      }
      streamedText := streamedText + cleaned;
      deltas := deltas + [cleaned];
      assert deltas[..|deltas| - 1] == old(deltas);
    }

    method EmitSnapshot(snapshot: string)
      requires Valid()
      modifies this
      ensures Valid() && streamedText == Merge(strip, old(streamedText), snapshot)
      ensures var d := Delta(strip, old(streamedText), snapshot);
              deltas == old(deltas) + if d == "" then [] else [d]
    {
      var delta := UnseenDelta(strip, streamedText, snapshot);
      if delta.None? {
        assert streamedText + "" == streamedText;
        return;
      }
      EmitDelta(delta.value);
    }

    method Receive(u: Update)
      requires Valid()
      modifies this
      ensures Valid() && streamedText == MergeAll(strip, old(streamedText), FramesOf(u))
      ensures old(deltas) <= deltas
    {
      var toolFrame := false;
      for k := 0 to |u.messages|
        invariant toolFrame <==> exists i :: 0 <= i < k && FromTool(u.messages[i])
      {
        toolFrame := toolFrame || FromTool(u.messages[k]);
      }
      ghost var cursor := if u.writeAtCursor != "" && !IsToolFrame(u) then [u.writeAtCursor] else [];
      if u.writeAtCursor != "" && !toolFrame {
        EmitSnapshot(u.writeAtCursor);
        assert cursor[1..] == [];
      }
      MergeAllAppend(strip, old(streamedText), cursor, Snapshots(u.messages));
      ReceiveMessages(u.messages);
    }

    method ReceiveMessages(messages: seq<BotMessage>)
      requires Valid()
      modifies this
      ensures Valid() && streamedText == MergeAll(strip, old(streamedText), Snapshots(messages))
      ensures old(deltas) <= deltas
    {
      assert messages[0..] == messages;
      for k := 0 to |messages|
        invariant Valid() && old(deltas) <= deltas
        invariant MergeAll(strip, old(streamedText), Snapshots(messages)) ==
                    MergeAll(strip, streamedText, Snapshots(messages[k..]))
      {
        var m := messages[k];
        assert messages[k..][0] == m && messages[k..][1..] == messages[k + 1..];
        if m.author == "bot" && m.messageType == "" && m.text != "" {
          assert ([m.text] + Snapshots(messages[k + 1..]))[1..] == Snapshots(messages[k + 1..]);
          EmitSnapshot(m.text);
        } else {
          assert [] + Snapshots(messages[k + 1..]) == Snapshots(messages[k + 1..]);
        }
      }
    }

    method ReceiveAll(updates: seq<Update>)
      requires Valid()
      modifies this
      ensures Valid() && streamedText == MergeAll(strip, old(streamedText), AllFrames(updates))
      ensures old(deltas) <= deltas
    {
      assert updates[0..] == updates;
      for k := 0 to |updates|
        invariant Valid() && old(deltas) <= deltas
        invariant MergeAll(strip, old(streamedText), AllFrames(updates)) ==
                    MergeAll(strip, streamedText, AllFrames(updates[k..]))
      {
        assert updates[k..][0] == updates[k] && updates[k..][1..] == updates[k + 1..];
        MergeAllAppend(strip, streamedText, FramesOf(updates[k]), AllFrames(updates[k + 1..]));
        Receive(updates[k]);
      }
    }
  }
}
