/** The conversations that `previous_response_id` chains together. */
module ResponseHistory {
  import opened Text
  import opened Protocol
  import opened ToolConversation
  import Responses = ResponsesTranslation

  datatype Reply = Reply(calls: seq<ToolCall>, text: string)

  /** One request: `upstream` is `None` for every failure after validation, and `publicId` is the
      freshly drawn id under which the turn is stored. */
  datatype Turn = Turn(previous: string, request: seq<Message>, upstream: Option<Reply>, publicId: string)

  type Store = map<string, seq<Message>>

  datatype Status = Stored | UnknownPrevious | ProtocolViolation | UpstreamFailed | EmptyReply

  function ReplyMessages(reply: Reply): seq<Message> {
    if reply.calls != [] then [Message("assistant", Null, "", reply.calls)]
    else if reply.text != "" then [Message("assistant", Str(reply.text), "", [])]
    else []
  }

  predicate HasContent(reply: Reply) {
    reply.calls != [] || Trim(reply.text) != ""
  }

  /** The whole conversation that a turn is about, or `None` for an unknown predecessor. */
  function Conversation(store: Store, t: Turn): Option<seq<Message>> {
    if t.previous == "" then Some(t.request)
    else if t.previous !in store || store[t.previous] == [] then None
    else Some(store[t.previous] + t.request)
  }

  function StatusOf(store: Store, t: Turn): Status {
    match Conversation(store, t)
    case None => UnknownPrevious
    case Some(messages) =>
      if !Valid(messages) then ProtocolViolation
      else if t.upstream == None then UpstreamFailed
      else if !HasContent(t.upstream.value) then EmptyReply
      else Stored
  }

  function StepStore(store: Store, t: Turn): Store {
    if StatusOf(store, t).Stored?
    then store[t.publicId := Conversation(store, t).value + ReplyMessages(t.upstream.value)]
    else store
  }

  /** What a turn leaves behind: the earlier history, the request and one assistant message with the
      calls, or with the text where there are none. A turn that is not stored changes nothing. */
  lemma TurnIsStored(store: Store, t: Turn)
    ensures StatusOf(store, t) != Stored ==> StepStore(store, t) == store
    ensures StatusOf(store, t) == Stored ==>
              var before := if t.previous == "" then [] else if t.previous in store then store[t.previous] else [];
              && t.upstream.Some?
              && var calls, text := t.upstream.value.calls, t.upstream.value.text;
                 var reply := Message("assistant", if calls == [] then Str(text) else Null, "", calls);
                 StepStore(store, t) == store[t.publicId := before + t.request + [reply]]
  {
    if StatusOf(store, t) == Stored {
      assert Trim("") == "";
      if t.previous == "" {
        assert [] + t.request == t.request;
      }
    }
  }

  /** When a turn is stored, and what else becomes of it. */
  lemma StatusExactly(store: Store, t: Turn)
    ensures var known := t.previous == "" || (t.previous in store && store[t.previous] != []);
            var before := if t.previous == "" || t.previous !in store then [] else store[t.previous];
            var answered := t.upstream.Some? && (t.upstream.value.calls != [] || Trim(t.upstream.value.text) != "");
            && (StatusOf(store, t) == UnknownPrevious <==> !known)
            && (StatusOf(store, t) == ProtocolViolation <==> known && !Valid(before + t.request))
            && (StatusOf(store, t) == UpstreamFailed <==>
                  known && Valid(before + t.request) && t.upstream.None?)
            && (StatusOf(store, t) == Stored <==> known && Valid(before + t.request) && answered)
  {
    assert [] + t.request == t.request;
  }

  /** The state after all `turns`, the last one at the end of the sequence. */
  function Run(turns: seq<Turn>): Store {
    if turns == [] then map[] else StepStore(Run(turns[..|turns| - 1]), turns[|turns| - 1])
  }

  /** Response ids are never drawn twice and never empty. */
  ghost predicate FreshIds(turns: seq<Turn>) {
    && (forall t | t in turns :: t.publicId != "")
    && (forall i, j | 0 <= i < j < |turns| :: turns[i].publicId != turns[j].publicId)
  }

  lemma FreshPrefix(turns: seq<Turn>)
    requires turns != [] && FreshIds(turns)
    ensures FreshIds(turns[..|turns| - 1])
  {
  }

  lemma {:induction false} StoredIds(turns: seq<Turn>)
    ensures forall id | id in Run(turns) :: exists k :: 0 <= k < |turns| && turns[k].publicId == id
  {
    if turns != [] {
      var n := |turns| - 1;
      StoredIds(turns[..n]);
      forall id | id in Run(turns) ensures exists k :: 0 <= k < |turns| && turns[k].publicId == id {
        if id in Run(turns[..n]) {
          var k :| 0 <= k < n && turns[..n][k].publicId == id;
          assert turns[k].publicId == id;
        } else {
          assert turns[n].publicId == id;
        }
      }
    }
  }

  lemma NewIdIsFresh(turns: seq<Turn>)
    requires turns != [] && FreshIds(turns)
    ensures turns[|turns| - 1].publicId !in Run(turns[..|turns| - 1])
  {
    StoredIds(turns[..|turns| - 1]);
  }

  /** Stored histories are never changed or removed by later turns. */
  lemma {:induction false} EntriesNeverChange(turns: seq<Turn>, k: nat, id: string)
    requires FreshIds(turns) && k <= |turns| && id in Run(turns[..k])
    ensures id in Run(turns) && Run(turns)[id] == Run(turns[..k])[id]
  {
    if k < |turns| {
      var n := |turns| - 1;
      FreshPrefix(turns);
      assert turns[..n][..k] == turns[..k];
      EntriesNeverChange(turns[..n], k, id);
      NewIdIsFresh(turns);
    } else {
      assert turns[..k] == turns;
    }
  }

  /** The turns that lead to a stored response, found by following the predecessor ids back. */
  function Chain(turns: seq<Turn>, id: string): seq<Turn> {
    if turns == [] then []
    else
      var n := |turns| - 1;
      if turns[n].publicId != id then Chain(turns[..n], id)
      else (if turns[n].previous == "" then [] else Chain(turns[..n], turns[n].previous)) + [turns[n]]
  }

  function Transcript(chain: seq<Turn>): seq<Message> {
    if chain == [] then []
    else
      var last := chain[|chain| - 1];
      Transcript(chain[..|chain| - 1]) + last.request +
      (if last.upstream.Some? then ReplyMessages(last.upstream.value) else [])
  }

  /** Each stored history is the requests and replies of its chain, in order, and nothing else. */
  lemma {:induction false} StoredIsTranscript(turns: seq<Turn>, id: string)
    requires FreshIds(turns) && id in Run(turns)
    ensures Run(turns)[id] == Transcript(Chain(turns, id))
  {
    var n := |turns| - 1;
    var before, t := Run(turns[..n]), turns[n];
    FreshPrefix(turns);
    NewIdIsFresh(turns);
    if id == t.publicId {
      var chain := Chain(turns, id);
      var earlier := if t.previous == "" then [] else Chain(turns[..n], t.previous);
      assert chain == earlier + [t] && chain[..|chain| - 1] == earlier;
      if t.previous == "" {
        assert [] + t.request == t.request;
      } else {
        StoredIsTranscript(turns[..n], t.previous);
      }
    } else {
      StoredIsTranscript(turns[..n], id);
    }
  }

  // ---------------------------------------------------------------------------------------------
  // What a stored history is waiting for
  // ---------------------------------------------------------------------------------------------

  /** Call ids come from hashes: that they are new to the conversation is an assumption. */
  ghost predicate FreshReply(messages: seq<Message>, reply: Reply) {
    var ids := Ids(reply.calls);
    Distinct(ids) && "" !in ids && Elements(ids) !! Elements(CallIds(messages))
  }

  ghost predicate FreshReplies(turns: seq<Turn>) {
    forall k | 0 <= k < |turns| :: FreshAt(turns, k)
  }

  ghost predicate FreshAt(turns: seq<Turn>, k: nat)
    requires k < |turns|
  {
    StatusOf(Run(turns[..k]), turns[k]).Stored? ==>
      FreshReply(Conversation(Run(turns[..k]), turns[k]).value, turns[k].upstream.value)
  }

  /** The ids of the last reply. */
  function Awaited(history: seq<Message>): seq<string> {
    if history == [] then [] else Ids(history[|history| - 1].toolCalls)
  }

  /** The validator, run over a stored history, is left with exactly the last reply's calls. */
  ghost predicate Waiting(history: seq<Message>) {
    && history != []
    && Check(START, history, 0).Accepted?
    && var st := Check(START, history, 0).state;
       StateOk(st) && st.pending == Elements(Awaited(history)) && Distinct(Awaited(history))
       && st.pending + st.completed == Elements(CallIds(history))
  }

  lemma ReplyIsOneMessage(reply: Reply)
    requires HasContent(reply)
    ensures |ReplyMessages(reply)| == 1
    ensures ReplyMessages(reply)[0].role == "assistant" && ReplyMessages(reply)[0].toolCalls == reply.calls
  {
    assert Trim("") == "";
  }

  lemma AfterValid(history: seq<Message>)
    requires Valid(history)
    ensures Check(START, history, 0) == Accepted(State({}, Elements(CallIds(history))))
  {
    CheckTracksCalls(START, history, 0);
    var st := Check(START, history, 0).state;
    assert st.completed == st.pending + st.completed == Elements(CallIds(history));
  }

  lemma OneMessageMore(history: seq<Message>, m: Message)
    requires m.role == "assistant" && Valid(history)
    requires Distinct(Ids(m.toolCalls)) && "" !in Ids(m.toolCalls)
    requires Elements(Ids(m.toolCalls)) !! Elements(CallIds(history))
    ensures Check(START, history + [m], 0) == Accepted(State(Elements(Ids(m.toolCalls)), Elements(CallIds(history))))
    ensures StateOk(Check(START, history + [m], 0).state)
  {
    AfterValid(history);
    var st := State({}, Elements(CallIds(history)));
    OpenExactly(st, m.toolCalls, |history|);
    assert {} + Elements(Ids(m.toolCalls)) == Elements(Ids(m.toolCalls));
    CheckAppend(START, history, [m], 0);
    CheckOne(st, m, |history|);
  }

  lemma CheckOne(st: State, m: Message, index: nat)
    ensures Check(st, [m], index) == Step(st, m, index)
  {
    assert [m][1..] == [];
  }

  lemma ReplyLeavesItsCalls(messages: seq<Message>, reply: Reply)
    requires Valid(messages) && HasContent(reply) && FreshReply(messages, reply)
    ensures Waiting(messages + ReplyMessages(reply))
    ensures Awaited(messages + ReplyMessages(reply)) == Ids(reply.calls)
  {
    ReplyIsOneMessage(reply);
    var m := ReplyMessages(reply)[0];
    assert ReplyMessages(reply) == [m];
    OneMessageMore(messages, m);
    CheckTracksCalls(START, messages + [m], 0);
    assert Awaited(messages + [m]) == Ids(reply.calls);
  }

  /** Every history stored in a run waits for exactly the calls of its last reply. */
  lemma {:induction false} StoredIsWaiting(turns: seq<Turn>, id: string)
    requires FreshIds(turns) && FreshReplies(turns) && id in Run(turns)
    ensures Waiting(Run(turns)[id])
  {
    var n := |turns| - 1;
    FreshPrefix(turns);
    if id in Run(turns[..n]) {
      forall k | 0 <= k < n ensures FreshAt(turns[..n], k) {
        assert FreshAt(turns, k) && turns[..n][..k] == turns[..k];
      }
      StoredIsWaiting(turns[..n], id);
      NewIdIsFresh(turns);
    } else {
      assert FreshAt(turns, n);
      ReplyLeavesItsCalls(Conversation(Run(turns[..n]), turns[n]).value, turns[n].upstream.value);
    }
  }

  /** A follow-up request is accepted if and only if it first answers exactly the calls of the last
      reply, in any order, and what it adds beyond that is well formed and reuses no id. */
  lemma FollowUpAccepted(history: seq<Message>, request: seq<Message>)
    requires Waiting(history)
    ensures var shape := ShapeOf(request);
            Valid(history + request) <==>
              && multiset(shape.lead) == multiset(Awaited(history))
              && Answered(shape.rounds)
              && Distinct(AllCalls(shape.rounds)) && "" !in AllCalls(shape.rounds)
              && Elements(AllCalls(shape.rounds)) !! Elements(CallIds(history))
  {
    var st := Check(START, history, 0).state;
    CheckAppend(START, history, request, 0);
    assert Check(START, history + request, 0) == Check(st, request, |history|);
    CheckExactly(st, request, |history|);
    assert multiset(Awaited(history)) == multiset(st.pending) by {
      DistinctMultiset(Awaited(history));
    }
  }

  /** A whole chain of turns stays answerable: along any run, a next request that consists of the
      results of the last reply's calls (and of messages of other roles) passes the validator. */
  lemma AnsweringTheLastReply(turns: seq<Turn>, id: string, request: seq<Message>)
    requires FreshIds(turns) && FreshReplies(turns) && id in Run(turns)
    requires ShapeOf(request).rounds == []
    requires multiset(ShapeOf(request).lead) == multiset(Awaited(Run(turns)[id]))
    ensures Valid(Run(turns)[id] + request)
  {
    StoredIsWaiting(turns, id);
    FollowUpAccepted(Run(turns)[id], request);
    assert AllCalls([]) == [];
  }

  // ---------------------------------------------------------------------------------------------
  // Follow-ups in the Responses format
  // ---------------------------------------------------------------------------------------------

  /** The ids of the outputs that an input begins with. */
  function LeadingOutputs(tokens: seq<Responses.Token>): (ids: seq<string>)
    ensures |ids| <= |tokens|
  {
    if tokens != [] && tokens[0].Output? then [tokens[0].id] + LeadingOutputs(tokens[1..]) else []
  }

  lemma {:induction false} LeadingSplit(tokens: seq<Responses.Token>)
    ensures var outs := LeadingOutputs(tokens);
            var rest := Responses.TokenShape(tokens[|outs|..]);
            && Responses.TokenShape(tokens) == rest.(lead := outs + rest.lead)
            && (rest.lead == [] || "" in rest.lead)
            && Responses.CalledIds(tokens) == Responses.CalledIds(tokens[|outs|..])
  {
    if tokens != [] && tokens[0].Output? {
      LeadingSplit(tokens[1..]);
      assert tokens[|LeadingOutputs(tokens)|..] == tokens[1..][|LeadingOutputs(tokens[1..])|..];
      Assoc([tokens[0].id], LeadingOutputs(tokens[1..]),
            Responses.TokenShape(tokens[|LeadingOutputs(tokens)|..]).lead);
    } else {
      assert tokens[0..] == tokens && [] + Responses.TokenShape(tokens).lead == Responses.TokenShape(tokens).lead;
    }
  }

  /** A Responses input that follows a stored history is accepted if and only if it begins with the
      outputs of exactly the awaited calls, in any order, and goes on as an acceptable input of its
      own that reuses no id. */
  lemma FollowUpInputAccepted(codec: Codec, history: seq<Message>, r: Responses.Request)
    requires Waiting(history) && r.input.Arr? && Responses.Translate(codec, r).Ok?
    ensures var tokens := Responses.Tokens(r.input.items);
            var outs := LeadingOutputs(tokens);
            var rest := tokens[|outs|..];
            Valid(history + Responses.Translate(codec, r).value) <==>
              && multiset(outs) == multiset(Awaited(history))
              && Responses.Acceptable(rest)
              && Elements(Responses.CalledIds(rest)) !! Elements(CallIds(history))
  {
    var tokens := Responses.Tokens(r.input.items);
    var outs := LeadingOutputs(tokens);
    var rest := tokens[|outs|..];
    InputShape(codec, r);
    FollowUpAccepted(history, Responses.Translate(codec, r).value);
    LeadingSplit(tokens);
    Responses.TokenShapeCalls(tokens);
    LeadDecides(outs, Responses.TokenShape(rest).lead, history);
    if "" !in Responses.CalledIds(rest) {
      Responses.PairedExactly(rest);
    }
  }

  lemma InputShape(codec: Codec, r: Responses.Request)
    requires r.input.Arr? && Responses.Translate(codec, r).Ok?
    ensures ShapeOf(Responses.Translate(codec, r).value) == Responses.TokenShape(Responses.Tokens(r.input.items))
  {
    SystemIsInvisible(Responses.Prefix(r), Responses.ItemsMessages(codec, r.input.items).value);
    Responses.TranslationShape(codec, r.input.items);
  }

  /** A result without an id answers nothing. */
  lemma LeadDecides(outs: seq<string>, more: seq<string>, history: seq<Message>)
    requires Waiting(history) && (more == [] || "" in more)
    ensures multiset(outs + more) == multiset(Awaited(history)) <==>
              more == [] && multiset(outs) == multiset(Awaited(history))
  {
    if more == [] {
      assert outs + more == outs;
    } else {
      assert "" in multiset(outs + more);
      assert "" !in Elements(Awaited(history));
      assert "" !in multiset(Awaited(history));
    }
  }

  predicate IsOutput(item: Value) {
    item.Obj? && StrField(item.fields, "type") in {"function_call_output", "custom_tool_call_output"}
  }

  function OutputIds(items: seq<Value>): (ids: seq<string>)
    requires forall k | 0 <= k < |items| :: IsOutput(items[k])
    ensures |ids| == |items|
  {
    if items == [] then []
    else
      assert IsOutput(items[0]);
      [StrField(items[0].fields, "call_id")] + OutputIds(items[1..])
  }

  lemma {:induction false} OutputsLead(items: seq<Value>)
    requires forall k | 0 <= k < |items| :: IsOutput(items[k])
    ensures LeadingOutputs(Responses.Tokens(items)) == OutputIds(items)
    ensures |Responses.Tokens(items)| == |items|
  {
    if items != [] {
      assert IsOutput(items[0]);
      OutputsLead(items[1..]);
      assert Responses.TokenOf(items[0]) == [Responses.Output(StrField(items[0].fields, "call_id"))];
      assert Responses.Tokens(items)[1..] == Responses.Tokens(items[1..]);
    }
  }

  /** End to end: along any chain of turns, a request of output items for the calls of the last reply
      is translated and accepted, whatever its instructions and tools. */
  lemma OutputsAreAccepted(codec: Codec, turns: seq<Turn>, id: string, r: Responses.Request)
    requires FreshIds(turns) && FreshReplies(turns) && id in Run(turns)
    requires r.input.Arr? && forall k | 0 <= k < |r.input.items| :: IsOutput(r.input.items[k])
    requires multiset(OutputIds(r.input.items)) == multiset(Awaited(Run(turns)[id]))
    ensures Responses.Translate(codec, r).Ok?
    ensures Valid(Run(turns)[id] + Responses.Translate(codec, r).value)
  {
    StoredIsWaiting(turns, id);
    OutputsAnswer(codec, Run(turns)[id], r);
  }

  lemma OutputsAnswer(codec: Codec, history: seq<Message>, r: Responses.Request)
    requires Waiting(history) && r.input.Arr? && forall k | 0 <= k < |r.input.items| :: IsOutput(r.input.items[k])
    requires multiset(OutputIds(r.input.items)) == multiset(Awaited(history))
    ensures Responses.Translate(codec, r).Ok? && Valid(history + Responses.Translate(codec, r).value)
  {
    OutputsTranslate(codec, r);
    OutputsLead(r.input.items);
    var tokens := Responses.Tokens(r.input.items);
    assert tokens[|LeadingOutputs(tokens)|..] == [];
    NothingIsAcceptable(history);
    FollowUpInputAccepted(codec, history, r);
  }

  lemma OutputsTranslate(codec: Codec, r: Responses.Request)
    requires r.input.Arr? && forall k | 0 <= k < |r.input.items| :: IsOutput(r.input.items[k])
    ensures Responses.Translate(codec, r).Ok?
  {
    var items := r.input.items;
    forall item | item in items ensures !Responses.IsProgress(item) {
      var k :| 0 <= k < |items| && items[k] == item;
    }
    Responses.ProgressIsInvisible(codec, items);
  }

  lemma NothingIsAcceptable(history: seq<Message>)
    ensures Responses.Acceptable([]) && Elements(Responses.CalledIds([])) !! Elements(CallIds(history))
  {
  }

  // ---------------------------------------------------------------------------------------------
  // The handler
  // ---------------------------------------------------------------------------------------------

  class ResponseStore {
    var responseMessages: Store

    constructor ()
      ensures responseMessages == Run([])
    {
      responseMessages := map[];
    }

    method Respond(t: Turn) returns (status: Status)
      requires t.publicId !in responseMessages
      modifies this
      ensures status == StatusOf(old(responseMessages), t)
      ensures responseMessages == StepStore(old(responseMessages), t)
      ensures forall id | id in old(responseMessages) ::
                id in responseMessages && responseMessages[id] == old(responseMessages)[id]
    {
      var messages := t.request;
      if t.previous != "" {
        var prior := if t.previous in responseMessages then responseMessages[t.previous] else [];
        if |prior| == 0 {
          return UnknownPrevious;
        }
        messages := prior + messages;
      }
      var err := ValidateToolConversation(messages);
      ValidIffWellFormed(messages);
      if err.Some? {
        return ProtocolViolation;
      }
      if t.upstream.None? {
        return UpstreamFailed;
      }
      var reply := t.upstream.value;
      if !HasContent(reply) {
        return EmptyReply;
      }
      var stored := messages;
      if |reply.calls| > 0 {
        stored := stored + [Message("assistant", Null, "", reply.calls)];
      } else if reply.text != "" {
        stored := stored + [Message("assistant", Str(reply.text), "", [])];
      }
      responseMessages := responseMessages[t.publicId := stored];
      status := Stored;
    }
  }
}
