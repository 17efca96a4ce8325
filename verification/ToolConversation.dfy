/** The tool protocol of /v1/chat/completions: every assistant call is answered by exactly one
    matching tool message before the next assistant message. */
module ToolConversation {
  import opened Text
  import opened Protocol

  datatype ProtocolError =
    | ResultsMissingBefore(index: nat)
    | CallIdMissing(index: nat)
    | DuplicateCall(id: string)
    | ResultIdRequired(index: nat)
    | UnexpectedResult(id: string)
    | MissingResult(id: string)

  datatype State = State(pending: set<string>, completed: set<string>)

  datatype Outcome = Accepted(state: State) | Rejected(error: ProtocolError)

  const START := State({}, {})

  function Open(st: State, calls: seq<ToolCall>, index: nat): Outcome
    decreases |calls|
  {
    if calls == [] then Accepted(st)
    else if calls[0].id == "" then Rejected(CallIdMissing(index))
    else if calls[0].id in st.pending || calls[0].id in st.completed then Rejected(DuplicateCall(calls[0].id))
    else Open(st.(pending := st.pending + {calls[0].id}), calls[1..], index)
  }

  function Step(st: State, m: Message, index: nat): Outcome {
    if m.role == "assistant" then
      if st.pending != {} then Rejected(ResultsMissingBefore(index)) else Open(st, m.toolCalls, index)
    else if m.role == "tool" then
      if m.toolCallId == "" then Rejected(ResultIdRequired(index))
      else if m.toolCallId !in st.pending then Rejected(UnexpectedResult(m.toolCallId))
      else Accepted(State(st.pending - {m.toolCallId}, st.completed + {m.toolCallId}))
    else Accepted(st)
  }

  function Check(st: State, messages: seq<Message>, index: nat): Outcome
    decreases |messages|
  {
    if messages == [] then Accepted(st)
    else
      match Step(st, messages[0], index)
      case Accepted(st') => Check(st', messages[1..], index + 1)
      case Rejected(e) => Rejected(e)
  }

  predicate Valid(messages: seq<Message>) {
    var r := Check(START, messages, 0);
    r.Accepted? && r.state.pending == {}
  }

  // ---------------------------------------------------------------------------------------------
  // The declarative reading, which knows neither pending nor completed sets
  // ---------------------------------------------------------------------------------------------

  /** The call ids of one assistant message and the result ids up to the next assistant message. */
  datatype Round = Round(calls: seq<string>, results: seq<string>)

  /** `lead` are the result ids before the first assistant message. */
  datatype Shape = Shape(lead: seq<string>, rounds: seq<Round>)

  function ShapeOf(messages: seq<Message>): Shape {
    if messages == [] then Shape([], [])
    else
      var rest := ShapeOf(messages[1..]);
      var m := messages[0];
      if m.role == "assistant" then Shape([], [Round(Ids(m.toolCalls), rest.lead)] + rest.rounds)
      else if m.role == "tool" then rest.(lead := [m.toolCallId] + rest.lead)
      else rest
  }

  function AllCalls(rounds: seq<Round>): seq<string> {
    if rounds == [] then [] else rounds[0].calls + AllCalls(rounds[1..])
  }

  ghost predicate Answered(rounds: seq<Round>) {
    forall r | r in rounds :: multiset(r.results) == multiset(r.calls)
  }

  ghost predicate WellFormed(shape: Shape) {
    && shape.lead == []
    && Answered(shape.rounds)
    && Distinct(AllCalls(shape.rounds))
    && "" !in AllCalls(shape.rounds)
  }

  /** `WellFormed` for a conversation that goes on from a state in the middle. */
  ghost predicate WellFormedFrom(shape: Shape, st: State) {
    && multiset(shape.lead) == multiset(st.pending)
    && Answered(shape.rounds)
    && Distinct(AllCalls(shape.rounds))
    && "" !in AllCalls(shape.rounds)
    && Elements(AllCalls(shape.rounds)) !! st.pending + st.completed
  }

  ghost predicate StateOk(st: State) {
    st.pending !! st.completed && "" !in st.pending
  }

  /** Which ids can be opened in a state. */
  ghost predicate CanOpen(st: State, ids: seq<string>) {
    Distinct(ids) && "" !in ids && Elements(ids) !! st.pending + st.completed
  }

  lemma CanOpenFront(st: State, id: string, ids: seq<string>)
    ensures CanOpen(st, [id] + ids) <==>
              && id != "" && id !in st.pending && id !in st.completed
              && CanOpen(st.(pending := st.pending + {id}), ids)
    ensures Elements([id] + ids) == {id} + Elements(ids)
  {
    var all := [id] + ids;
    DistinctAppend([id], ids);
    assert Elements([id]) == {id};
    assert Elements(all) == {id} + Elements(ids) by {
      assert all[0] == id && all[1..] == ids;
    }
    assert "" in all <==> id == "" || "" in ids;
  }

  lemma {:induction false} OpenExactly(st: State, calls: seq<ToolCall>, index: nat)
    requires StateOk(st)
    ensures var r := Open(st, calls, index);
            && (r.Accepted? <==> CanOpen(st, Ids(calls)))
            && (r.Accepted? ==> r.state == State(st.pending + Elements(Ids(calls)), st.completed) && StateOk(r.state))
    decreases |calls|
  {
    if calls == [] {
      assert st.pending + Elements(Ids(calls)) == st.pending;
    } else {
      var id, ids := calls[0].id, Ids(calls[1..]);
      assert Ids(calls) == [id] + ids;
      CanOpenFront(st, id, ids);
      if id != "" && id !in st.pending && id !in st.completed {
        OpenExactly(st.(pending := st.pending + {id}), calls[1..], index);
        assert st.pending + {id} + Elements(ids) == st.pending + Elements(Ids(calls));
      }
    }
  }

  lemma {:induction false} DistinctMultiset(s: seq<string>)
    requires Distinct(s)
    ensures multiset(s) == multiset(Elements(s))
  {
    if s != [] {
      var k := |s| - 1;
      assert s == s[..k] + [s[k]];
      DistinctAppend(s[..k], [s[k]]);
      DistinctMultiset(s[..k]);
      assert Elements(s) == Elements(s[..k]) + {s[k]};
    }
  }

  lemma StepShapeTool(shape: Shape, id: string, st: State)
    requires StateOk(st)
    ensures multiset([id] + shape.lead) == multiset(st.pending) <==>
              id in st.pending && multiset(shape.lead) == multiset(st.pending - {id})
  {
    assert multiset([id] + shape.lead) == multiset{id} + multiset(shape.lead);
    if id in st.pending {
      assert multiset(st.pending) == multiset{id} + multiset(st.pending - {id});
      if multiset([id] + shape.lead) == multiset(st.pending) {
        assert multiset(shape.lead) == multiset(st.pending) - multiset{id};
      }
    } else {
      assert (multiset{id} + multiset(shape.lead))[id] > 0;
    }
  }

  lemma StepShapeAssistant(shape: Shape, ids: seq<string>, completed: set<string>)
    ensures WellFormedFrom(Shape([], [Round(ids, shape.lead)] + shape.rounds), State({}, completed)) <==>
              && CanOpen(State({}, completed), ids)
              && WellFormedFrom(shape, State(Elements(ids), completed))
  {
    var first, later := Round(ids, shape.lead), AllCalls(shape.rounds);
    var rounds := [first] + shape.rounds;
    assert rounds[0] == first && rounds[1..] == shape.rounds;
    assert AllCalls(rounds) == ids + later;
    DistinctAppend(ids, later);
    assert Elements(ids + later) == Elements(ids) + Elements(later);
    assert Answered(rounds) <==> multiset(shape.lead) == multiset(ids) && Answered(shape.rounds) by {
      assert first in rounds && forall r :: r in rounds <==> r == first || r in shape.rounds;
    }
    if Distinct(ids) {
      DistinctMultiset(ids);
    }
  }

  /** One step of the automaton reads exactly one message off the declarative shape. */
  lemma StepExactly(st: State, messages: seq<Message>, index: nat)
    requires StateOk(st) && messages != []
    ensures StepReads(st, messages, Step(st, messages[0], index))
  {
    if messages[0].role == "assistant" {
      StepAssistant(st, messages, index);
    } else if messages[0].role == "tool" {
      StepTool(st, messages, index);
    }
  }

  ghost predicate StepReads(st: State, messages: seq<Message>, r: Outcome)
    requires messages != []
  {
    && (WellFormedFrom(ShapeOf(messages), st) <==> r.Accepted? && WellFormedFrom(ShapeOf(messages[1..]), r.state))
    && (r.Accepted? ==> StateOk(r.state))
  }

  lemma StepAssistant(st: State, messages: seq<Message>, index: nat)
    requires StateOk(st) && messages != [] && messages[0].role == "assistant"
    ensures StepReads(st, messages, Step(st, messages[0], index))
  {
    var calls, rest := messages[0].toolCalls, ShapeOf(messages[1..]);
    assert ShapeOf(messages) == Shape([], [Round(Ids(calls), rest.lead)] + rest.rounds);
    if st.pending == {} {
      OpenExactly(st, calls, index);
      StepShapeAssistant(rest, Ids(calls), st.completed);
      assert st.pending + Elements(Ids(calls)) == Elements(Ids(calls));
    } else {
      assert |multiset(st.pending)| == |st.pending| != 0;
    }
  }

  lemma StepTool(st: State, messages: seq<Message>, index: nat)
    requires StateOk(st) && messages != [] && messages[0].role == "tool"
    ensures StepReads(st, messages, Step(st, messages[0], index))
  {
    var id, rest := messages[0].toolCallId, ShapeOf(messages[1..]);
    assert ShapeOf(messages) == rest.(lead := [id] + rest.lead);
    StepShapeTool(rest, id, st);
    if id in st.pending {
      assert (st.pending - {id}) + (st.completed + {id}) == st.pending + st.completed;
    }
  }

  /** From any state, the automaton accepts to the end exactly the well-formed continuations. */
  lemma {:induction false} CheckExactly(st: State, messages: seq<Message>, index: nat)
    requires StateOk(st)
    ensures var r := Check(st, messages, index);
            && (r.Accepted? && r.state.pending == {} <==> WellFormedFrom(ShapeOf(messages), st))
            && (r.Accepted? ==> StateOk(r.state))
    decreases |messages|
  {
    if messages == [] {
      assert |multiset(st.pending)| == |st.pending|;
    } else {
      StepExactly(st, messages, index);
      if Step(st, messages[0], index).Accepted? {
        CheckExactly(Step(st, messages[0], index).state, messages[1..], index + 1);
      }
    }
  }

  /** The validator accepts a conversation if and only if all call ids are non-empty and pairwise
      distinct, no result precedes the first assistant message, and the results between an assistant
      message and the next one are a permutation of its calls. */
  lemma ValidIffWellFormed(messages: seq<Message>)
    ensures Valid(messages) <==> WellFormed(ShapeOf(messages))
  {
    CheckExactly(START, messages, 0);
    assert Elements(AllCalls(ShapeOf(messages).rounds)) !! START.pending + START.completed;
    assert multiset(START.pending) == multiset{};
  }

  lemma {:induction false} CheckAppend(st: State, a: seq<Message>, b: seq<Message>, index: nat)
    ensures Check(st, a + b, index) ==
              match Check(st, a, index)
              case Accepted(st') => Check(st', b, index + |a|)
              case Rejected(e) => Rejected(e)
    decreases |a|
  {
    if a == [] {
      assert a + b == b;
    } else {
      assert (a + b)[1..] == a[1..] + b;
      match Step(st, a[0], index)
      case Accepted(st') => CheckAppend(st', a[1..], b, index + 1);
      case Rejected(_) =>
    }
  }

  /** Messages that are neither assistant nor tool messages do not show in the shape. */
  lemma {:induction false} SystemIsInvisible(pre: seq<Message>, ms: seq<Message>)
    requires forall m | m in pre :: m.role != "assistant" && m.role != "tool"
    ensures ShapeOf(pre + ms) == ShapeOf(ms)
  {
    if pre == [] {
      assert pre + ms == ms;
    } else {
      assert (pre + ms)[1..] == pre[1..] + ms;
      assert pre[0] in pre;
      SystemIsInvisible(pre[1..], ms);
    }
  }

  lemma OneRoundMore(shape: Shape, calls: seq<string>)
    ensures Answered([Round(calls, shape.lead)] + shape.rounds) <==>
              multiset(shape.lead) == multiset(calls) && Answered(shape.rounds)
    ensures AllCalls([Round(calls, shape.lead)] + shape.rounds) == calls + AllCalls(shape.rounds)
  {
    var rounds := [Round(calls, shape.lead)] + shape.rounds;
    assert rounds[0] == Round(calls, shape.lead) && rounds[1..] == shape.rounds;
    assert forall r :: r in rounds <==> r == rounds[0] || r in shape.rounds;
  }

  /** The ids of all assistant calls of a conversation, in order. */
  function CallIds(messages: seq<Message>): seq<string> {
    AllCalls(ShapeOf(messages).rounds)
  }

  /** The ids that are open or answered after an accepted run are exactly the ids of its calls. */
  lemma {:induction false} CheckTracksCalls(st: State, messages: seq<Message>, index: nat)
    requires StateOk(st) && Check(st, messages, index).Accepted?
    ensures var st' := Check(st, messages, index).state;
            st'.pending + st'.completed == st.pending + st.completed + Elements(CallIds(messages))
    decreases |messages|
  {
    if messages == [] {
      assert AllCalls([]) == [];
    } else {
      var m := messages[0];
      if m.role == "assistant" {
        OpenExactly(st, m.toolCalls, index);
        var rest := ShapeOf(messages[1..]);
        var rounds := [Round(Ids(m.toolCalls), rest.lead)] + rest.rounds;
        assert rounds[1..] == rest.rounds;
        assert Elements(AllCalls(rounds)) == Elements(Ids(m.toolCalls)) + Elements(AllCalls(rest.rounds));
      }
      CheckTracksCalls(Step(st, m, index).state, messages[1..], index + 1);
    }
  }

  method OpenCalls(pending: set<string>, completed: set<string>, calls: seq<ToolCall>, index: nat)
    returns (pending': set<string>, err: Option<ProtocolError>)
    ensures Open(State(pending, completed), calls, index) ==
              if err.None? then Accepted(State(pending', completed)) else Rejected(err.value)
  {
    pending' := pending;
    for k := 0 to |calls|
      invariant Open(State(pending, completed), calls, index) == Open(State(pending', completed), calls[k..], index)
    {
      var id := calls[k].id;
      assert calls[k..][0] == calls[k] && calls[k..][1..] == calls[k + 1..];
      if id == "" {
        return pending', Some(CallIdMissing(index));
      }
      if id in pending' || id in completed {
        return pending', Some(DuplicateCall(id));
      }
      pending' := pending' + {id};
    }
    err := None;
  }

  /** The validator; the last error names any one of the calls without a result. */
  method ValidateToolConversation(messages: seq<Message>) returns (err: Option<ProtocolError>)
    ensures err.None? <==> WellFormed(ShapeOf(messages))
    ensures err.Some? && !err.value.MissingResult? ==> Check(START, messages, 0) == Rejected(err.value)
    ensures err.Some? && err.value.MissingResult? ==>
              Check(START, messages, 0).Accepted? && err.value.id in Check(START, messages, 0).state.pending
  {
    var pending: set<string>, completed: set<string> := {}, {};
    ValidIffWellFormed(messages);
    for i := 0 to |messages|
      invariant Check(START, messages, 0) == Check(State(pending, completed), messages[i..], i)
    {
      var m := messages[i];
      assert messages[i..][0] == m && messages[i..][1..] == messages[i + 1..];
      if m.role == "assistant" {
        if pending != {} {
          return Some(ResultsMissingBefore(i));
        }
        var pending', e := OpenCalls(pending, completed, m.toolCalls, i);
        if e.Some? {
          OpenErrors(State(pending, completed), m.toolCalls, i);
          return e;
        }
        pending := pending';
      } else if m.role == "tool" {
        if m.toolCallId == "" {
          return Some(ResultIdRequired(i));
        }
        if m.toolCallId !in pending {
          return Some(UnexpectedResult(m.toolCallId));
        }
        pending, completed := pending - {m.toolCallId}, completed + {m.toolCallId};
      }
    }
    if pending != {} {
      var id :| id in pending;
      return Some(MissingResult(id));
    }
    err := None;
  }

  lemma {:induction false} OpenErrors(st: State, calls: seq<ToolCall>, index: nat)
    ensures Open(st, calls, index).Rejected? ==>
              Open(st, calls, index).error.CallIdMissing? || Open(st, calls, index).error.DuplicateCall?
    decreases |calls|
  {
    if calls != [] {
      OpenErrors(st.(pending := st.pending + {calls[0].id}), calls[1..], index);
    }
  }
}
