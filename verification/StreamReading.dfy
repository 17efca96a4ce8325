/** The end of a streamed answer: which part of it the client has read, with and without calls. */
module StreamReading {
  import opened Text
  import opened StreamHold
  import opened StreamDelay

  /** The calls of the tool events, in order. */
  function ToolsOf(events: seq<StreamEvent>): seq<StreamedTool> {
    if events == [] then []
    else
      var ev := events[0];
      (if ev.kind == "tool" && ev.toolName != "" && ev.arguments != "" then [StreamedTool(ev.toolName, ev.arguments)]
       else []) + ToolsOf(events[1..])
  }

  /** A stream that ends without tool calls delivers its whole text exactly once, also when the
      text only came with the final result. */
  lemma {:induction false} PlainAnswerDeliveredOnce(events: seq<StreamEvent>, resText: string,
                                                    parse: string -> seq<StreamedTool>)
    requires CallsOf(Recover(Run(START, events), resText), parse) == []
    ensures Sent(Finish(Run(START, events), resText, parse).chunks) == WholeText(events, resText)
    ensures RolesOk(Finish(Run(START, events), resText, parse).chunks)
  {
    SentPlusPendingIsReceived(events);
    var st := Recover(Run(START, events), resText);
    SentOfEmit(st, st.pending);
  }

  /** A stream that ends in recovered calls has sent none of the text that encodes them. */
  lemma {:induction false} RecoveredCallsStayHidden(events: seq<StreamEvent>, resText: string,
                                                    parse: string -> seq<StreamedTool>)
    requires forall t :: parse(t) != [] ==> HasMarker(t)
    requires Run(START, events).tools == []
    requires CallsOf(Recover(Run(START, events), resText), parse) != []
    ensures var sent := Sent(Finish(Run(START, events), resText, parse).chunks);
            && HasMarker(WholeText(events, resText))
            && sent <= WholeText(events, resText)
            && (forall j: nat | MarkerAt(WholeText(events, resText), j) :: |sent| <= j)
  {
    var st := Run(START, events);
    SentPlusPendingIsReceived(events);
    RecoveredText(st, resText, events);
    assert HasMarker(Recover(st, resText).text);
    forall j: nat | MarkerAt(Received(events), j) ensures |Sent(st.chunks)| <= j {
      assert events + [] == events;
      NeverSendsIntoMarker(events, [], j);
    }
  }

  lemma {:induction false} RecoveredText(st: State, resText: string, events: seq<StreamEvent>)
    requires st.text == Received(events)
    ensures Recover(st, resText).text == WholeText(events, resText)
    ensures Recover(st, resText).chunks == st.chunks
  {
    assert "" + resText == resText;
  }

  lemma {:induction false} RunTools(st: State, events: seq<StreamEvent>)
    ensures Run(st, events).tools == st.tools + ToolsOf(events)
    decreases |events|
  {
    if events != [] {
      RunTools(Step(st, events[0]), events[1..]);
    }
  }

  /** The calls an answer ends with: those of its tool events, or else those recovered from its text. */
  function CallsOfAnswer(events: seq<StreamEvent>, resText: string, parse: string -> seq<StreamedTool>)
    : seq<StreamedTool>
  {
    if ToolsOf(events) != [] then ToolsOf(events) else parse(WholeText(events, resText))
  }

  lemma {:induction false} CallsOfRun(events: seq<StreamEvent>, resText: string, parse: string -> seq<StreamedTool>)
    ensures CallsOf(Recover(Run(START, events), resText), parse) == CallsOfAnswer(events, resText, parse)
  {
    RunTools(START, events);
    RunInTwo(events, []);
    RecoveredText(Run(START, events), resText, events);
  }

  /** What waits at the end is never nothing, unless there was no text at all. */
  lemma {:induction false} SomethingWaits(st: State, resText: string)
    requires Good(st)
    ensures Recover(st, resText).pending == "" <==> Recover(st, resText).text == ""
  {
    if HasMarker(st.text) {
      assert st.pending != "";
    }
    assert "" + resText == resText;
  }

  /** What a client reads of an answer. It is the whole text, once, exactly when the answer ends
      without calls or has no text. With calls it stops before the first marker, and where nothing
      that was received has one, it lacks the last eight runes. */
  ghost predicate ReadOk(sent: string, whole: string, received: string, called: bool) {
    && sent <= whole
    && (sent == whole <==> whole == "" || !called)
    && (called ==> forall j: nat | MarkerAt(whole, j) :: |sent| <= j)
    && (called && !HasMarker(received) ==> sent == received[..|received| - Held(|received|)])
  }

  lemma {:induction false} ClientReadsExactly(events: seq<StreamEvent>, resText: string,
                                              parse: string -> seq<StreamedTool>)
    ensures ReadOk(Sent(Finish(Run(START, events), resText, parse).chunks), WholeText(events, resText),
                   Received(events), CallsOfAnswer(events, resText, parse) != [])
  {
    var st := Run(START, events);
    CallsOfRun(events, resText, parse);
    RunInTwo(events, []);
    RecoveredText(st, resText, events);
    SomethingWaits(st, resText);
    if CallsOfAnswer(events, resText, parse) == [] {
      PlainAnswerDeliveredOnce(events, resText, parse);
    } else {
      StopsAtMarker(events, resText);
      if !HasMarker(Received(events)) {
        HoldBackIsChunkingIndependent(events);
      }
    }
  }

  lemma {:induction false} RecoverConserves(st: State, resText: string)
    requires Sent(st.chunks) + st.pending == st.text
    ensures Sent(st.chunks) + Recover(st, resText).pending == Recover(st, resText).text
  {
    assert Sent(st.chunks) + (st.pending + resText) == (Sent(st.chunks) + st.pending) + resText;
  }

  lemma PartOfWhole(a: string, b: string, whole: string)
    requires a + b == whole
    ensures a <= whole && (a == whole <==> b == "")
  {
  }

  lemma {:induction false} StopsAtMarker(events: seq<StreamEvent>, resText: string)
    ensures Sent(Run(START, events).chunks) <= WholeText(events, resText)
    ensures Sent(Run(START, events).chunks) == WholeText(events, resText) <==>
              Recover(Run(START, events), resText).pending == ""
    ensures forall j: nat | MarkerAt(WholeText(events, resText), j) :: |Sent(Run(START, events).chunks)| <= j
  {
    var st := Run(START, events);
    SentPlusPendingIsReceived(events);
    RecoveredText(st, resText, events);
    RecoverConserves(st, resText);
    PartOfWhole(Sent(st.chunks), Recover(st, resText).pending, WholeText(events, resText));
    MarkerBoundsSent(events);
  }

  lemma {:induction false} MarkerBoundsSent(events: seq<StreamEvent>)
    ensures forall j: nat | MarkerAt(Received(events), j) :: |Sent(Run(START, events).chunks)| <= j
    ensures Received(events) == "" ==> Sent(Run(START, events).chunks) == ""
  {
    SentPlusPendingIsReceived(events);
    forall j: nat | MarkerAt(Received(events), j) ensures |Sent(Run(START, events).chunks)| <= j {
      assert events + [] == events;
      NeverSendsIntoMarker(events, [], j);
    }
  }

  /** One whole streamed answer, driven the way the upstream client drives the callback. */
  method StreamAnswer(events: seq<StreamEvent>, resText: string, parse: string -> seq<StreamedTool>)
    returns (written: seq<Chunk>, calls: seq<StreamedTool>)
    ensures RolesOk(written)
    ensures calls == [] ==> Sent(written) == WholeText(events, resText)
    ensures Sent(written) <= WholeText(events, resText)
    ensures calls != [] ==> forall j: nat | MarkerAt(Received(events), j) :: |Sent(written)| <= j
  {
    var callback := new StreamCallback();
    for k := 0 to |events|
      invariant callback.Valid() && callback.Value() == Run(START, events[..k])
    {
      callback.OnEvent(events[k]);
      assert events[..k + 1] == events[..k] + [events[k]];
      RunAppend(START, events[..k], [events[k]]);
    }
    assert events[..|events|] == events;
    calls := callback.Complete(resText, parse);
    written := callback.written;
    SentPlusPendingIsReceived(events);
    if calls == [] {
      PlainAnswerDeliveredOnce(events, resText, parse);
    } else {
      assert events + [] == events;
      forall j: nat | MarkerAt(Received(events), j) ensures |Sent(written)| <= j {
        NeverSendsIntoMarker(events, [], j);
      }
    }
  }
}
