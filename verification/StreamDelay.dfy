/** What the streaming callback has sent at any moment of a stream. */
module StreamDelay {
  import opened Text
  import opened StreamHold

  /** Nothing is lost, doubled or reordered while the stream runs, for every chunking. */
  lemma {:induction false} SentPlusPendingIsReceived(events: seq<StreamEvent>)
    ensures var st := Run(START, events);
            && Sent(st.chunks) + st.pending == st.text == Received(events)
            && RolesOk(st.chunks)
  {
    RunInTwo(events, []);
  }

  /** However the stream goes on, what has been sent ends before the first marker of the whole
      text, even when the marker arrives in pieces. */
  lemma {:induction false} NeverSendsIntoMarker(events: seq<StreamEvent>, later: seq<StreamEvent>, j: nat)
    requires MarkerAt(Received(events + later), j)
    ensures |Sent(Run(START, events).chunks)| <= j
  {
    RunInTwo(events, later);
    var st := Run(START, events);
    if j < |Sent(st.chunks)| {
      RuledOutLater(st.text, Received(later), j, FENCE);
      RuledOutLater(st.text, Received(later), j, COMMAND);
    }
  }

  /** Once a whole marker has arrived, nothing more is sent until the stream ends. */
  lemma {:induction false} SilentAfterMarker(events: seq<StreamEvent>, later: seq<StreamEvent>)
    requires HasMarker(Received(events))
    ensures Run(START, events + later).chunks == Run(START, events).chunks
  {
    RunInTwo(events, later);
  }

  /** While no marker has arrived the delay is exactly eight runes, whatever the chunk boundaries. */
  lemma {:induction false} HoldBackIsChunkingIndependent(events: seq<StreamEvent>)
    requires !HasMarker(Received(events))
    ensures var n := |Received(events)|;
            Sent(Run(START, events).chunks) == Received(events)[..if n < 8 then 0 else n - 8]
  {
    RunInTwo(events, []);
    var st := Run(START, events);
    assert st.text[..|st.text| - |st.pending|] == Sent(st.chunks);
  }

  /** From the last marker-free moment on, what is sent is bounded on both sides by the whole text
      alone: it holds back at most eight runes of the marker-free part and stops at the marker. */
  lemma {:induction false} SentBounds(events: seq<StreamEvent>, later: seq<StreamEvent>)
    requires !HasMarker(Received(events))
    ensures var sent := Sent(Run(START, events + later).chunks);
            && sent <= Received(events + later)
            && |Received(events)| - 8 <= |sent|
            && (forall j: nat | MarkerAt(Received(events + later), j) :: |sent| <= j)
  {
    RunInTwo(events, later);
    HoldBackIsChunkingIndependent(events);
    assert events + later + [] == events + later;
    forall j: nat | MarkerAt(Received(events + later), j)
      ensures |Sent(Run(START, events + later).chunks)| <= j
    {
      NeverSendsIntoMarker(events + later, [], j);
    }
  }
}
