/** From ChatHub to the client: the merge of snapshots and cursor tokens and the events of the same
    stream feed the streaming callback, one text event for each delta. */
module Pipeline {
  import opened Text
  import opened Protocol
  import opened SnapshotMerge
  import Stream = StreamHold
  import Delay = StreamDelay
  import Reading = StreamReading
  import Fenced = FencedTools
  import Tools = RecoveredTools

  /** What one step of the upstream loop handles: a text for the merge, or an event of another kind. */
  datatype Signal = Text(frame: string) | Event(event: Stream.StreamEvent)

  function TextEvent(delta: string): Stream.StreamEvent {
    Stream.StreamEvent("text", delta, "", "")
  }

  /** The events one signal hands to the callback: its delta, or the event itself unless it is text. */
  function SignalEvents(strip: string -> string, streamed: string, s: Signal): seq<Stream.StreamEvent> {
    match s
    case Text(frame) => if Delta(strip, streamed, frame) == "" then [] else [TextEvent(Delta(strip, streamed, frame))]
    case Event(ev) => if ev.kind == "text" then [] else [ev]
  }

  function AfterSignal(strip: string -> string, streamed: string, s: Signal): string {
    match s
    case Text(frame) => Merge(strip, streamed, frame)
    case Event(_) => streamed
  }

  function Events(strip: string -> string, streamed: string, signals: seq<Signal>): seq<Stream.StreamEvent>
    decreases |signals|
  {
    if signals == [] then []
    else
      SignalEvents(strip, streamed, signals[0]) +
      Events(strip, AfterSignal(strip, streamed, signals[0]), signals[1..])
  }

  /** The texts among the signals, in order. */
  function FramesIn(signals: seq<Signal>): seq<string> {
    if signals == [] then []
    else (if signals[0].Text? then [signals[0].frame] else []) + FramesIn(signals[1..])
  }

  /** The calls of the tool events among the signals, in order. */
  function ToolsIn(signals: seq<Signal>): seq<Stream.StreamedTool> {
    if signals == [] then []
    else (if signals[0].Event? then Reading.ToolsOf([signals[0].event]) else []) + ToolsIn(signals[1..])
  }

  lemma {:induction false} ReceivedAppend(a: seq<Stream.StreamEvent>, b: seq<Stream.StreamEvent>)
    ensures Stream.Received(a + b) == Stream.Received(a) + Stream.Received(b)
  {
    if a == [] {
      assert a + b == b;
    } else {
      assert (a + b)[0] == a[0] && (a + b)[1..] == a[1..] + b;
      ReceivedAppend(a[1..], b);
      Assoc(if a[0].kind == "text" then a[0].text else "", Stream.Received(a[1..]), Stream.Received(b));
    }
  }

  lemma {:induction false} ToolsAppend(a: seq<Stream.StreamEvent>, b: seq<Stream.StreamEvent>)
    ensures Reading.ToolsOf(a + b) == Reading.ToolsOf(a) + Reading.ToolsOf(b)
  {
    if a == [] {
      assert a + b == b;
    } else {
      assert (a + b)[0] == a[0] && (a + b)[1..] == a[1..] + b;
      ToolsAppend(a[1..], b);
      Assoc(if Stream.IsTool(a[0]) then [Stream.StreamedTool(a[0].toolName, a[0].arguments)] else [],
            Reading.ToolsOf(a[1..]), Reading.ToolsOf(b));
    }
  }

  lemma OneSignal(strip: string -> string, streamed: string, s: Signal)
    ensures var events := SignalEvents(strip, streamed, s);
            && streamed + Stream.Received(events) == AfterSignal(strip, streamed, s)
            && Reading.ToolsOf(events) == if s.Event? then Reading.ToolsOf([s.event]) else []
  {
    var events := SignalEvents(strip, streamed, s);
    assert streamed + "" == streamed;
    if events != [] {
      assert events == [events[0]] && [events[0]][1..] == [];
    }
  }

  /** Nothing is lost between the merge and the callback, whatever other events come in between. */
  lemma {:induction false} SignalsArrive(strip: string -> string, streamed: string, signals: seq<Signal>)
    ensures var events := Events(strip, streamed, signals);
            && streamed + Stream.Received(events) == MergeAll(strip, streamed, FramesIn(signals))
            && Reading.ToolsOf(events) == ToolsIn(signals)
    decreases |signals|
  {
    if signals == [] {
      assert streamed + "" == streamed;
    } else {
      var first := SignalEvents(strip, streamed, signals[0]);
      var after := AfterSignal(strip, streamed, signals[0]);
      var later := Events(strip, after, signals[1..]);
      OneSignal(strip, streamed, signals[0]);
      SignalsArrive(strip, after, signals[1..]);
      ReceivedAppend(first, later);
      ToolsAppend(first, later);
      Assoc(streamed, Stream.Received(first), Stream.Received(later));
      FramesFront(strip, streamed, signals);
    }
  }

  lemma FramesFront(strip: string -> string, streamed: string, signals: seq<Signal>)
    requires signals != []
    ensures MergeAll(strip, streamed, FramesIn(signals)) ==
              MergeAll(strip, AfterSignal(strip, streamed, signals[0]), FramesIn(signals[1..]))
  {
    if signals[0].Text? {
      assert FramesIn(signals)[0] == signals[0].frame && FramesIn(signals)[1..] == FramesIn(signals[1..]);
    } else {
      assert FramesIn(signals) == FramesIn(signals[1..]);
    }
  }

  /** The text of an answer: what was streamed, or the final result when nothing was. */
  function AnswerText(streamed: string, resText: string): string {
    if streamed == "" && Trim(resText) != "" then resText else streamed
  }

  /** What the client has been sent when the answer is over, with the whole of fencedToolCalls as the
      recovery. */
  function Read(env: Fenced.Env, strip: string -> string, signals: seq<Signal>, resText: string): string {
    var st := Stream.Run(Stream.START, Events(strip, "", signals));
    Stream.Sent(Stream.Finish(st, resText, Tools.Parser(env)).chunks)
  }

  /** The answer ends without calls: no tool event came, and none is recovered from the text. */
  predicate NoCalls(env: Fenced.Env, signals: seq<Signal>, text: string) {
    ToolsIn(signals) == [] && Tools.Recovered(env, text) == []
  }

  /** The client reads the text that ChatHub wrote, however it was cut into snapshots and tokens and
      whatever events came with it. It reads all of it, once, if and only if the answer ends without
      calls (or has no text). With calls it reads nothing from the first fence or quoted "command" on,
      and where there is neither, it lacks the last eight runes. */
  lemma ClientReadsUpstream(env: Fenced.Env, strip: string -> string, signals: seq<Signal>, frames: seq<Frame>,
                            resText: string)
    requires FramesIn(signals) == Payloads(frames) && Trace("", frames)
    ensures var upstream := UpstreamAll("", frames);
            var text := AnswerText(upstream, resText);
            Reading.ReadOk(Read(env, strip, signals, resText), text, upstream, !NoCalls(env, signals, text))
  {
    var events := Events(strip, "", signals);
    AnswerArrives(strip, signals, frames, resText);
    Reading.ClientReadsExactly(events, resText, Tools.Parser(env));
    CalledExactly(env, events, signals, resText);
  }

  lemma CalledExactly(env: Fenced.Env, events: seq<Stream.StreamEvent>, signals: seq<Signal>, resText: string)
    requires Reading.ToolsOf(events) == ToolsIn(signals)
    ensures Reading.CallsOfAnswer(events, resText, Tools.Parser(env)) != [] <==>
              !NoCalls(env, signals, Stream.WholeText(events, resText))
  {
  }

  lemma AnswerArrives(strip: string -> string, signals: seq<Signal>, frames: seq<Frame>, resText: string)
    requires FramesIn(signals) == Payloads(frames) && Trace("", frames)
    ensures var events := Events(strip, "", signals);
            && Stream.Received(events) == UpstreamAll("", frames)
            && Stream.WholeText(events, resText) == AnswerText(UpstreamAll("", frames), resText)
            && Reading.ToolsOf(events) == ToolsIn(signals)
  {
    var events := Events(strip, "", signals);
    SignalsArrive(strip, "", signals);
    MixedTraceFollowsUpstream(strip, "", frames);
    assert "" + Stream.Received(events) == Stream.Received(events);
  }

  /** A tool event costs the client the end of the answer: wherever it comes, a text without markers is
      read without its last eight runes. */
  lemma ToolEventLosesTail(env: Fenced.Env, strip: string -> string, signals: seq<Signal>, frames: seq<Frame>,
                           resText: string)
    requires FramesIn(signals) == Payloads(frames) && Trace("", frames)
    requires ToolsIn(signals) != [] && !Stream.HasMarker(UpstreamAll("", frames))
    ensures var text := UpstreamAll("", frames);
            Read(env, strip, signals, resText) == text[..|text| - Stream.Held(|text|)]
  {
    ClientReadsUpstream(env, strip, signals, frames, resText);
  }

  lemma OneSnapshotRead(env: Fenced.Env, strip: string -> string, signals: seq<Signal>, text: string, resText: string)
    requires Plain(text) && text != "" && FramesIn(signals) == [text]
    ensures Reading.ReadOk(Read(env, strip, signals, resText), text, text, !NoCalls(env, signals, text))
  {
    OneSnapshot(text);
    ClientReadsUpstream(env, strip, signals, [Snapshot(text)], resText);
  }

  /** Such a stream: one snapshot, then one tool event. */
  lemma TextThenEvent(text: string, ev: Stream.StreamEvent)
    requires Plain(text) && Stream.IsTool(ev)
    ensures var signals, frames := [Text(text), Event(ev)], [Snapshot(text)];
            && FramesIn(signals) == Payloads(frames) && ToolsIn(signals) != []
            && Trace("", frames) && UpstreamAll("", frames) == text
  {
    var signals := [Text(text), Event(ev)];
    assert signals[1..] == [Event(ev)] && [Event(ev)][1..] == [];
    assert FramesIn([Event(ev)]) == [];
    assert [ev][1..] == [];
    assert Reading.ToolsOf([ev]) == [Stream.StreamedTool(ev.toolName, ev.arguments)];
    assert ToolsIn([Event(ev)]) == Reading.ToolsOf([ev]);
    OneSnapshot(text);
  }

  lemma OneSnapshot(text: string)
    requires Plain(text)
    ensures Trace("", [Snapshot(text)]) && Payloads([Snapshot(text)]) == [text]
    ensures UpstreamAll("", [Snapshot(text)]) == text
  {
    assert [Snapshot(text)][1..] == [];
  }

  /** A shell fence is a text with a call: none of it reaches the client, although the request allows
      no shell. */
  lemma ShellIsNotRead(env: Fenced.Env, strip: string -> string, shell: string, command: string, resText: string)
    requires Tools.ShellInput(env, shell, command) && Plain(Tools.NamedText(shell, command))
    ensures Read(env, strip, [Text(Tools.NamedText(shell, command))], resText) == ""
  {
    var text := Tools.NamedText(shell, command);
    Tools.ShellFenceIsCalled(env, shell, command);
    Tools.NamedStarts(shell, command);
    assert [Text(text)][1..] == [] && FramesIn([Text(text)]) == [text];
    OneSnapshotRead(env, strip, [Text(text)], text, resText);
  }

  // ---------------------------------------------------------------------------------------------
  // The two loops
  // ---------------------------------------------------------------------------------------------

  /** One signal: its delta is handed to the callback as soon as it is known. */
  method RelaySignal(upstream: ChatStream, callback: Stream.StreamCallback, s: Signal)
    requires upstream.Valid() && callback.Valid()
    modifies upstream, callback
    ensures upstream.Valid() && callback.Valid()
    ensures upstream.streamedText == AfterSignal(upstream.strip, old(upstream.streamedText), s)
    ensures callback.Value() ==
              Stream.Run(old(callback.Value()), SignalEvents(upstream.strip, old(upstream.streamedText), s))
  {
    match s {
      case Text(frame) =>
        var known := |upstream.deltas|;
        upstream.EmitSnapshot(frame);
        if known < |upstream.deltas| {
          var delta := upstream.deltas[known];
          callback.OnEvent(TextEvent(delta));
          assert [TextEvent(delta)][1..] == [];
        }
      case Event(ev) =>
        if ev.kind != "text" {
          callback.OnEvent(ev);
          assert [ev][1..] == [];
        }
    }
  }

  /** The upstream loop and the callback together, over one whole answer. */
  method Relay(strip: string -> string, signals: seq<Signal>, resText: string,
               parse: string -> seq<Stream.StreamedTool>)
    returns (written: seq<Stream.Chunk>, calls: seq<Stream.StreamedTool>)
    ensures Stream.RolesOk(written)
    ensures var text := AnswerText(MergeAll(strip, "", FramesIn(signals)), resText);
            && calls == (if ToolsIn(signals) != [] then ToolsIn(signals) else parse(text))
            && Reading.ReadOk(Stream.Sent(written), text, MergeAll(strip, "", FramesIn(signals)), calls != [])
  {
    var upstream := new ChatStream(strip);
    var callback := new Stream.StreamCallback();
    ghost var events := Events(strip, "", signals);
    assert signals[0..] == signals;
    for k := 0 to |signals|
      invariant upstream.Valid() && callback.Valid() && upstream.strip == strip
      invariant Stream.Run(callback.Value(), Events(strip, upstream.streamedText, signals[k..])) ==
                  Stream.Run(Stream.START, events)
    {
      assert signals[k..][0] == signals[k] && signals[k..][1..] == signals[k + 1..];
      ghost var st, streamed := callback.Value(), upstream.streamedText;
      RelaySignal(upstream, callback, signals[k]);
      Stream.RunAppend(st, SignalEvents(strip, streamed, signals[k]),
                       Events(strip, upstream.streamedText, signals[k + 1..]));
    }
    assert callback.Value() == Stream.Run(Stream.START, events);
    calls := callback.Complete(resText, parse);
    written := callback.written;
    RelayEnds(strip, signals, resText, parse);
  }

  lemma RelayEnds(strip: string -> string, signals: seq<Signal>, resText: string,
                  parse: string -> seq<Stream.StreamedTool>)
    ensures var st := Stream.Run(Stream.START, Events(strip, "", signals));
            var text := AnswerText(MergeAll(strip, "", FramesIn(signals)), resText);
            var calls := Stream.CallsOf(Stream.Recover(st, resText), parse);
            var written := Stream.Finish(st, resText, parse).chunks;
            && Stream.RolesOk(written)
            && calls == (if ToolsIn(signals) != [] then ToolsIn(signals) else parse(text))
            && Reading.ReadOk(Stream.Sent(written), text, MergeAll(strip, "", FramesIn(signals)), calls != [])
  {
    var events := Events(strip, "", signals);
    SignalsArrive(strip, "", signals);
    assert "" + Stream.Received(events) == Stream.Received(events);
    Reading.CallsOfRun(events, resText, parse);
    Reading.ClientReadsExactly(events, resText, parse);
    RolesAtEnd(events, resText, parse);
  }

  lemma RolesAtEnd(events: seq<Stream.StreamEvent>, resText: string, parse: string -> seq<Stream.StreamedTool>)
    ensures Stream.RolesOk(Stream.Finish(Stream.Run(Stream.START, events), resText, parse).chunks)
  {
    Delay.SentPlusPendingIsReceived(events);
    var st := Stream.Recover(Stream.Run(Stream.START, events), resText);
    Stream.SentOfEmit(st, st.pending);
  }
}
