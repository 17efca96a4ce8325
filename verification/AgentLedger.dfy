/** The evidence ledger: which tool calls of a conversation are completed, and with what result. */
module AgentLedger {
  import opened Text
  import opened Bytes
  import opened Protocol
  import opened ToolConversation
  import opened CompactResult

  const RESULT_LIMIT := 4000

  /** What stays abstract: fmt.Sprint of a value, the failure pattern and normalizeFailure. */
  datatype Env = Env(sprint: Value -> string, failing: Text8 -> bool, normalize: Text8 -> string)

  datatype Evidence = Evidence(id: string, name: string, arguments: string, result: Text8, failed: bool)

  datatype Ledger = Ledger(completed: seq<Evidence>, pending: seq<Evidence>, toolRounds: nat,
                           repeatedCall: bool, repeatedFailure: bool)

  function TextPart(part: Value): string {
    if part.Obj? && StrField(part.fields, "type") in {"text", "input_text", "output_text"}
    then StrField(part.fields, "text") else ""
  }

  function TextParts(parts: seq<Value>): string {
    if parts == [] then "" else TextPart(parts[0]) + TextParts(parts[1..])
  }

  function ContentToString(env: Env, content: Value): string {
    match content
    case Str(s) => s
    case Arr(parts) => TextParts(parts)
    case _ => env.sprint(content)
  }

  /** Text stays text; the parts of a list are joined, a text part by its text and any other part by
      nothing. */
  lemma {:induction false} ContentExactly(env: Env, a: seq<Value>, b: seq<Value>, part: Value)
    ensures forall s :: ContentToString(env, Str(s)) == s
    ensures ContentToString(env, Arr([])) == ""
    ensures ContentToString(env, Arr(a + b)) == ContentToString(env, Arr(a)) + ContentToString(env, Arr(b))
    ensures ContentToString(env, Arr([part])) ==
              if part.Obj? && Field(part.fields, "text").Str?
                 && (Field(part.fields, "type") == Str("text") || Field(part.fields, "type") == Str("input_text")
                     || Field(part.fields, "type") == Str("output_text"))
              then Field(part.fields, "text").text else ""
    ensures forall v: Value :: !v.Str? && !v.Arr? ==> ContentToString(env, v) == env.sprint(v)
  {
    assert [part][1..] == [] && TextPart(part) + "" == TextPart(part);
    if a == [] {
      assert a + b == b;
    } else {
      assert (a + b)[1..] == a[1..] + b;
      ContentExactly(env, a[1..], b, part);
      Assoc(TextPart(a[0]), TextParts(a[1..]), TextParts(b));
    }
  }

  function ResultOf(env: Env, content: Value): Text8 {
    Compact(Utf8(ContentToString(env, content)), RESULT_LIMIT)
  }

  /** A result takes at most 4000 bytes in the ledger. */
  lemma ResultBounded(env: Env, content: Value)
    requires |Utf8(ContentToString(env, content))| < GO_SIZE
    ensures |ResultOf(env, content)| <= 4000
  {
    CompactBounded(Utf8(ContentToString(env, content)), RESULT_LIMIT);
  }

  // ---------------------------------------------------------------------------------------------
  // The two loops of buildAgentLedger
  // ---------------------------------------------------------------------------------------------

  datatype Table = Table(calls: map<string, Evidence>, order: seq<string>)

  function AddCalls(t: Table, calls: seq<ToolCall>): Table
    decreases |calls|
  {
    if calls == [] then t
    else
      var c := calls[0];
      AddCalls(if c.id == "" then t
               else Table(t.calls[c.id := Evidence(c.id, c.name, c.arguments, [], false)], t.order + [c.id]),
               calls[1..])
  }

  function WithResult(env: Env, e: Evidence, content: Value): Evidence {
    var result := ResultOf(env, content);
    e.(result := result, failed := env.failing(result))
  }

  function AddMessage(env: Env, t: Table, m: Message): Table {
    if m.role == "assistant" then AddCalls(t, m.toolCalls)
    else if m.role == "tool" && m.toolCallId in t.calls then
      t.(calls := t.calls[m.toolCallId := WithResult(env, t.calls[m.toolCallId], m.content)])
    else t
  }

  function Collect(env: Env, t: Table, messages: seq<Message>): Table
    decreases |messages|
  {
    if messages == [] then t else Collect(env, AddMessage(env, t, messages[0]), messages[1..])
  }

  ghost predicate TableOk(t: Table) {
    forall id | id in t.order :: id in t.calls
  }

  function Listed(t: Table): (es: seq<Evidence>)
    requires TableOk(t)
    ensures |es| == |t.order|
    ensures forall k :: 0 <= k < |es| ==> es[k] == t.calls[t.order[k]]
  {
    seq(|t.order|, k requires 0 <= k < |t.order| => assert t.order[k] in t.order; t.calls[t.order[k]])
  }

  function Done(es: seq<Evidence>): seq<Evidence> {
    if es == [] then [] else (if es[0].result != [] then [es[0]] else []) + Done(es[1..])
  }

  function Open(es: seq<Evidence>): seq<Evidence> {
    if es == [] then [] else (if es[0].result == [] then [es[0]] else []) + Open(es[1..])
  }

  function Signature(e: Evidence): string {
    e.name + "\0" + e.arguments
  }

  function Signatures(es: seq<Evidence>): (r: seq<string>)
    ensures |r| == |es|
    ensures forall k :: 0 <= k < |es| ==> r[k] == Signature(es[k])
  {
    seq(|es|, k requires 0 <= k < |es| => Signature(es[k]))
  }

  /** A failed completed call counts by its name, arguments and normalised failure. */
  function FailureSignature(env: Env, e: Evidence): seq<string> {
    if e.result != [] && e.failed then [Signature(e) + "\0" + env.normalize(e.result)] else []
  }

  function FailureSignatures(env: Env, es: seq<Evidence>): seq<string> {
    if es == [] then []
    else FailureSignatures(env, es[..|es| - 1]) + FailureSignature(env, es[|es| - 1])
  }

  // ---------------------------------------------------------------------------------------------
  // The declarative reading
  // ---------------------------------------------------------------------------------------------

  /** The content of the last result for `id`. */
  function LastResult(messages: seq<Message>, id: string): Option<Value> {
    if messages == [] then None
    else
      var later := LastResult(messages[1..], id);
      if later.Some? then later
      else if messages[0].role == "tool" && messages[0].toolCallId == id then Some(messages[0].content)
      else None
  }

  function Updated(env: Env, e: Evidence, content: Option<Value>): Evidence {
    if content.Some? then WithResult(env, e, content.value) else e
  }

  function CallEvidence(env: Env, calls: seq<ToolCall>, later: seq<Message>): seq<Evidence> {
    if calls == [] then []
    else
      var c := calls[0];
      [Updated(env, Evidence(c.id, c.name, c.arguments, [], false), LastResult(later, c.id))] +
      CallEvidence(env, calls[1..], later)
  }

  /** One piece of evidence for each call, in call order, with the result that came after it. */
  function EvidenceOf(env: Env, messages: seq<Message>): seq<Evidence> {
    if messages == [] then []
    else (if messages[0].role == "assistant" then CallEvidence(env, messages[0].toolCalls, messages[1..]) else []) +
         EvidenceOf(env, messages[1..])
  }

  function UpdatedAll(env: Env, es: seq<Evidence>, messages: seq<Message>): (r: seq<Evidence>)
    ensures |r| == |es|
    ensures forall k :: 0 <= k < |es| ==> r[k] == Updated(env, es[k], LastResult(messages, es[k].id))
  {
    seq(|es|, k requires 0 <= k < |es| => Updated(env, es[k], LastResult(messages, es[k].id)))
  }

  ghost predicate Keyed(t: Table) {
    && (forall id | id in t.calls :: t.calls[id].id == id)
    && Elements(t.order) == t.calls.Keys
    && Distinct(t.order)
  }

  lemma KeyedIsOk(t: Table)
    requires Keyed(t)
    ensures TableOk(t)
  {
    forall id | id in t.order ensures id in t.calls {
      assert id in Elements(t.order);
    }
  }

  lemma AddOneLists(env: Env, t: Table, c: ToolCall, later: seq<Message>)
    requires Keyed(t) && c.id !in t.order && TableOk(t)
    ensures var e := Evidence(c.id, c.name, c.arguments, [], false);
            var t' := Table(t.calls[c.id := e], t.order + [c.id]);
            && Keyed(t') && TableOk(t')
            && UpdatedAll(env, Listed(t'), later) ==
               UpdatedAll(env, Listed(t), later) + [Updated(env, e, LastResult(later, c.id))]
  {
    var e := Evidence(c.id, c.name, c.arguments, [], false);
    var t' := Table(t.calls[c.id := e], t.order + [c.id]);
    DistinctAppend(t.order, [c.id]);
    assert Elements(t'.order) == Elements(t.order) + {c.id};
    assert t'.calls.Keys == t.calls.Keys + {c.id};
    KeyedIsOk(t');
    forall k | 0 <= k < |t.order| ensures Listed(t')[k] == Listed(t)[k] {
      assert t.order[k] in t.order && t'.order[k] == t.order[k];
    }
  }

  lemma {:induction false} AddCallsLists(env: Env, t: Table, calls: seq<ToolCall>, later: seq<Message>)
    requires Keyed(t) && Distinct(t.order + Ids(calls)) && "" !in Ids(calls)
    ensures Keyed(AddCalls(t, calls)) && AddCalls(t, calls).order == t.order + Ids(calls)
    ensures TableOk(t) && TableOk(AddCalls(t, calls))
    ensures UpdatedAll(env, Listed(AddCalls(t, calls)), later) ==
              UpdatedAll(env, Listed(t), later) + CallEvidence(env, calls, later)
    decreases |calls|
  {
    KeyedIsOk(t);
    if calls == [] {
      assert t.order + Ids(calls) == t.order;
    } else {
      var c := calls[0];
      var e := Evidence(c.id, c.name, c.arguments, [], false);
      var t' := Table(t.calls[c.id := e], t.order + [c.id]);
      assert Ids(calls)[0] == c.id;
      assert Ids(calls) == [c.id] + Ids(calls[1..]);
      Assoc(t.order, [c.id], Ids(calls[1..]));
      DistinctAppend(t'.order, Ids(calls[1..]));
      DistinctAppend(t.order, [c.id]);
      assert c.id in Elements([c.id]);
      assert forall id | id in t.order :: id in Elements(t.order);
      AddOneLists(env, t, c, later);
      AddCallsLists(env, t', calls[1..], later);
      Assoc(UpdatedAll(env, Listed(t), later), [Updated(env, e, LastResult(later, c.id))],
            CallEvidence(env, calls[1..], later));
    }
  }

  lemma AddResultLists(env: Env, t: Table, m: Message, later: seq<Message>)
    requires Keyed(t) && m.role == "tool"
    ensures Keyed(AddMessage(env, t, m)) && AddMessage(env, t, m).order == t.order
    ensures TableOk(t) && TableOk(AddMessage(env, t, m))
    ensures UpdatedAll(env, Listed(AddMessage(env, t, m)), later) == UpdatedAll(env, Listed(t), [m] + later)
  {
    var t' := AddMessage(env, t, m);
    KeyedIsOk(t);
    assert t'.calls.Keys == t.calls.Keys;
    KeyedIsOk(t');
    assert ([m] + later)[1..] == later && ([m] + later)[0] == m;
    var left, right := UpdatedAll(env, Listed(t'), later), UpdatedAll(env, Listed(t), [m] + later);
    forall k | 0 <= k < |t.order| ensures left[k] == right[k] {
      var id := t.order[k];
      assert id in t.order;
      assert LastResult([m] + later, id) ==
        if LastResult(later, id).Some? then LastResult(later, id)
        else if m.toolCallId == id then Some(m.content) else None;
    }
  }

  /** The map and the order list together hold exactly one entry per call, with its last result. */
  lemma {:induction false} CollectLists(env: Env, t: Table, messages: seq<Message>)
    requires Keyed(t) && Distinct(t.order + CallIds(messages)) && "" !in CallIds(messages)
    ensures Keyed(Collect(env, t, messages))
    ensures TableOk(t) && TableOk(Collect(env, t, messages))
    ensures Listed(Collect(env, t, messages)) == UpdatedAll(env, Listed(t), messages) + EvidenceOf(env, messages)
    decreases |messages|
  {
    KeyedIsOk(t);
    if messages == [] {
      assert UpdatedAll(env, Listed(t), messages) + EvidenceOf(env, messages) == Listed(t);
    } else {
      var m, rest := messages[0], messages[1..];
      assert messages == [m] + rest;
      var t' := AddMessage(env, t, m);
      CallIdsFront(messages);
      if m.role == "assistant" {
        var ids := Ids(m.toolCalls);
        assert t.order + (ids + CallIds(rest)) == (t.order + ids) + CallIds(rest);
        DistinctAppend(t.order + ids, CallIds(rest));
        AddCallsLists(env, t, m.toolCalls, rest);
        CollectLists(env, t', rest);
        assert UpdatedAll(env, Listed(t), messages) == UpdatedAll(env, Listed(t), rest) by {
          assert forall id :: LastResult(messages, id) == LastResult(rest, id);
        }
        Assoc(UpdatedAll(env, Listed(t), rest), CallEvidence(env, m.toolCalls, rest), EvidenceOf(env, rest));
      } else {
        if m.role == "tool" {
          AddResultLists(env, t, m, rest);
        } else {
          assert UpdatedAll(env, Listed(t), messages) == UpdatedAll(env, Listed(t), rest) by {
            assert forall id :: LastResult(messages, id) == LastResult(rest, id);
          }
        }
        CollectLists(env, t', rest);
        assert EvidenceOf(env, messages) == EvidenceOf(env, rest);
      }
    }
  }

  lemma CallIdsFront(messages: seq<Message>)
    requires messages != []
    ensures CallIds(messages) ==
              (if messages[0].role == "assistant" then Ids(messages[0].toolCalls) else []) + CallIds(messages[1..])
  {
    var rest := ShapeOf(messages[1..]);
    if messages[0].role == "assistant" {
      var rounds := ShapeOf(messages).rounds;
      assert rounds[0].calls == Ids(messages[0].toolCalls) && rounds[1..] == rest.rounds;
    }
  }

  // ---------------------------------------------------------------------------------------------
  // The ledger of an accepted conversation
  // ---------------------------------------------------------------------------------------------

  /** What one pass over the evidence amounts to. */
  ghost function LedgerOf(env: Env, es: seq<Evidence>): Ledger {
    Ledger(Done(es), Open(es), |es|, !Distinct(Signatures(es)), !Distinct(FailureSignatures(env, es)))
  }

  function ToolIds(messages: seq<Message>): seq<string> {
    if messages == [] then []
    else (if messages[0].role == "tool" then [messages[0].toolCallId] else []) + ToolIds(messages[1..])
  }

  function ResultsByRound(rounds: seq<Round>): seq<string> {
    if rounds == [] then [] else rounds[0].results + ResultsByRound(rounds[1..])
  }

  lemma {:induction false} ToolIdsByRound(messages: seq<Message>)
    ensures ToolIds(messages) == ShapeOf(messages).lead + ResultsByRound(ShapeOf(messages).rounds)
  {
    if messages != [] {
      ToolIdsByRound(messages[1..]);
      var shape, rest := ShapeOf(messages), ShapeOf(messages[1..]);
      if messages[0].role == "assistant" {
        assert shape.rounds[1..] == rest.rounds;
      }
    }
  }

  lemma {:induction false} AnsweredCounts(rounds: seq<Round>)
    requires Answered(rounds)
    ensures multiset(ResultsByRound(rounds)) == multiset(AllCalls(rounds))
  {
    if rounds != [] {
      assert rounds[0] in rounds;
      AnsweredCounts(rounds[1..]);
    }
  }

  /** In an accepted conversation there are as many results as calls, one for each id. */
  lemma OneResultPerCall(messages: seq<Message>)
    requires Valid(messages)
    ensures multiset(ToolIds(messages)) == multiset(CallIds(messages))
    ensures Distinct(CallIds(messages)) && "" !in CallIds(messages)
  {
    ValidIffWellFormed(messages);
    ToolIdsByRound(messages);
    AnsweredCounts(ShapeOf(messages).rounds);
    assert [] + ResultsByRound(ShapeOf(messages).rounds) == ResultsByRound(ShapeOf(messages).rounds);
  }

  lemma {:induction false} LastResultFound(messages: seq<Message>, id: string)
    ensures LastResult(messages, id).Some? <==> id in ToolIds(messages)
    ensures LastResult(messages, id).Some? ==>
              exists m :: m in messages && m.role == "tool" && m.toolCallId == id
                          && LastResult(messages, id) == Some(m.content)
  {
    if messages != [] {
      LastResultFound(messages[1..], id);
      assert messages[0] in messages;
      assert forall m | m in messages[1..] :: m in messages;
    }
  }

  /** What the evidence of one accepted call is: its own name and arguments, and the compacted
      content of the tool message that answers it. */
  ghost predicate Evident(env: Env, messages: seq<Message>, e: Evidence) {
    exists m ::
      && m in messages && m.role == "tool" && m.toolCallId == e.id
      && e.result == ResultOf(env, m.content) && e.failed == env.failing(e.result)
  }

  lemma {:induction false} CallEvidenceEvident(env: Env, calls: seq<ToolCall>, later: seq<Message>)
    requires forall id | id in Ids(calls) :: id in ToolIds(later)
    ensures forall e | e in CallEvidence(env, calls, later) :: Evident(env, later, e)
  {
    if calls != [] {
      var c := calls[0];
      assert Ids(calls) == [c.id] + Ids(calls[1..]);
      LastResultFound(later, c.id);
      CallEvidenceEvident(env, calls[1..], later);
      var e := Updated(env, Evidence(c.id, c.name, c.arguments, [], false), LastResult(later, c.id));
      assert Evident(env, later, e);
    }
  }

  lemma {:induction false} AnsweredEvident(env: Env, messages: seq<Message>)
    requires Answered(ShapeOf(messages).rounds)
    ensures forall e | e in EvidenceOf(env, messages) :: Evident(env, messages, e)
  {
    if messages != [] {
      var m, rest := messages[0], messages[1..];
      var shape := ShapeOf(messages);
      if m.role == "assistant" {
        assert shape.rounds[1..] == ShapeOf(rest).rounds && shape.rounds[0] in shape.rounds;
        forall r | r in ShapeOf(rest).rounds ensures multiset(r.results) == multiset(r.calls) {
          assert r in shape.rounds;
        }
        ToolIdsByRound(rest);
        forall id | id in Ids(m.toolCalls) ensures id in ToolIds(rest) {
          assert id in multiset(shape.rounds[0].results);
        }
        CallEvidenceEvident(env, m.toolCalls, rest);
      }
      AnsweredEvident(env, rest);
      forall e | e in EvidenceOf(env, messages) ensures Evident(env, messages, e) {
        assert Evident(env, rest, e);
        var answer :| answer in rest && answer.role == "tool" && answer.toolCallId == e.id
          && e.result == ResultOf(env, answer.content) && e.failed == env.failing(e.result);
        assert answer in messages;
      }
    }
  }

  /** All assistant calls of a conversation, in order. */
  function CallsOf(messages: seq<Message>): seq<ToolCall> {
    if messages == [] then []
    else (if messages[0].role == "assistant" then messages[0].toolCalls else []) + CallsOf(messages[1..])
  }

  ghost predicate Matches(es: seq<Evidence>, calls: seq<ToolCall>) {
    && |es| == |calls|
    && forall k | 0 <= k < |es| ::
         es[k].id == calls[k].id && es[k].name == calls[k].name && es[k].arguments == calls[k].arguments
  }

  lemma {:induction false} CallEvidenceMatches(env: Env, calls: seq<ToolCall>, later: seq<Message>)
    ensures Matches(CallEvidence(env, calls, later), calls)
  {
    if calls != [] {
      CallEvidenceMatches(env, calls[1..], later);
    }
  }

  lemma {:induction false} EvidenceInCallOrder(env: Env, messages: seq<Message>)
    ensures Matches(EvidenceOf(env, messages), CallsOf(messages))
    ensures Ids(CallsOf(messages)) == CallIds(messages)
  {
    IdsOfCalls(messages);
    if messages != [] {
      EvidenceInCallOrder(env, messages[1..]);
      if messages[0].role == "assistant" {
        CallEvidenceMatches(env, messages[0].toolCalls, messages[1..]);
        MatchesAppend(CallEvidence(env, messages[0].toolCalls, messages[1..]), messages[0].toolCalls,
                      EvidenceOf(env, messages[1..]), CallsOf(messages[1..]));
      }
    }
  }

  lemma MatchesAppend(es: seq<Evidence>, calls: seq<ToolCall>, es': seq<Evidence>, calls': seq<ToolCall>)
    requires Matches(es, calls) && Matches(es', calls')
    ensures Matches(es + es', calls + calls')
  {
  }

  lemma {:induction false} IdsOfCalls(messages: seq<Message>)
    ensures Ids(CallsOf(messages)) == CallIds(messages)
  {
    if messages != [] {
      CallIdsFront(messages);
      IdsOfCalls(messages[1..]);
    }
  }

  lemma RepeatCounts(s: seq<string>)
    requires !Distinct(s)
    ensures exists x :: multiset(s)[x] >= 2
  {
    var i, j :| 0 <= i < j < |s| && s[i] == s[j];
    assert s == s[..i] + [s[i]] + s[i + 1..j] + [s[j]] + s[j + 1..];
    assert multiset(s)[s[i]] >= 2;
  }

  lemma DistinctByCount(a: seq<string>, b: seq<string>)
    requires multiset(a) == multiset(b) && Distinct(b)
    ensures Distinct(a)
  {
    DistinctMultiset(b);
    if !Distinct(a) {
      RepeatCounts(a);
    }
  }

  /** With one result for each id, the last result is the only one. */
  lemma {:induction false} OnlyResult(messages: seq<Message>, m: Message)
    requires Distinct(ToolIds(messages)) && m in messages && m.role == "tool"
    ensures LastResult(messages, m.toolCallId) == Some(m.content)
  {
    var first, rest := messages[0], messages[1..];
    if first.role == "tool" {
      assert ToolIds(messages) == [first.toolCallId] + ToolIds(rest);
      DistinctAppend([first.toolCallId], ToolIds(rest));
      LastResultFound(rest, first.toolCallId);
      assert first.toolCallId in Elements([first.toolCallId]);
    } else {
      assert ToolIds(messages) == ToolIds(rest);
    }
    if m in rest {
      OnlyResult(rest, m);
    }
  }

  /** Whether the text of a tool message is nothing but white space. */
  predicate Blank(env: Env, m: Message) {
    forall k | 0 <= k < |ContentToString(env, m.content)| :: IsSpace(ContentToString(env, m.content)[k])
  }

  /** The compacted bytes of a text are empty exactly when it is blank. */
  lemma BlankExactly(env: Env, m: Message)
    ensures ResultOf(env, m.content) == [] <==> Blank(env, m)
  {
    var text := ContentToString(env, m.content);
    CompactBlank(Utf8(text), RESULT_LIMIT);
    TrimByRune(text);
    TrimsToNothing(text);
  }

  /** The evidence of a call is settled by the one message that answers it. */
  lemma SettledByAnswer(env: Env, messages: seq<Message>, e: Evidence, m: Message)
    requires Valid(messages) && Evident(env, messages, e)
    requires m in messages && m.role == "tool" && m.toolCallId == e.id
    ensures e.result == ResultOf(env, m.content)
    ensures e.result == [] <==> Blank(env, m)
  {
    OneResultPerCall(messages);
    DistinctByCount(ToolIds(messages), CallIds(messages));
    var answer :| answer in messages && answer.role == "tool" && answer.toolCallId == e.id
      && e.result == ResultOf(env, answer.content);
    OnlyResult(messages, answer);
    OnlyResult(messages, m);
    BlankExactly(env, m);
  }

  /** On an accepted conversation the ledger covers every call once and in call order, every call has
      a tool message that answers it, and it counts as pending if and only if the text of that
      message is blank. */
  lemma AcceptedLedger(env: Env, messages: seq<Message>)
    requires Valid(messages)
    ensures Matches(EvidenceOf(env, messages), CallsOf(messages))
    ensures |Done(EvidenceOf(env, messages))| + |Open(EvidenceOf(env, messages))| == |CallsOf(messages)|
    ensures forall e | e in EvidenceOf(env, messages) :: Evident(env, messages, e)
    ensures forall e, m | e in EvidenceOf(env, messages) && m in messages && m.role == "tool" && m.toolCallId == e.id ::
              && e.result == ResultOf(env, m.content)
              && (e in Open(EvidenceOf(env, messages)) <==> Blank(env, m))
              && (e in Done(EvidenceOf(env, messages)) <==> !Blank(env, m))
  {
    ValidIffWellFormed(messages);
    EvidenceInCallOrder(env, messages);
    AnsweredEvident(env, messages);
    PartitionMembers(EvidenceOf(env, messages));
    forall e, m | e in EvidenceOf(env, messages) && m in messages && m.role == "tool" && m.toolCallId == e.id
      ensures e.result == ResultOf(env, m.content) && (e.result == [] <==> Blank(env, m))
    {
      SettledByAnswer(env, messages, e, m);
    }
  }

  lemma {:induction false} PartitionMembers(es: seq<Evidence>)
    ensures forall e :: e in Open(es) <==> e in es && e.result == []
    ensures forall e :: e in Done(es) <==> e in es && e.result != []
    ensures |Done(es)| + |Open(es)| == |es|
  {
    if es != [] {
      PartitionMembers(es[1..]);
      assert es == [es[0]] + es[1..];
    }
  }

  // ---------------------------------------------------------------------------------------------
  // The active turn
  // ---------------------------------------------------------------------------------------------

  /** The position of the last user message, or -1. */
  function LastUser(messages: seq<Message>): (k: int)
    ensures -1 <= k < |messages|
    ensures k >= 0 ==> messages[k].role == "user"
    ensures forall i | k < i < |messages| :: messages[i].role != "user"
  {
    if messages == [] then -1
    else if messages[|messages| - 1].role == "user" then |messages| - 1
    else LastUser(messages[..|messages| - 1])
  }

  function Active(messages: seq<Message>): seq<Message> {
    if LastUser(messages) <= 0 then messages else messages[LastUser(messages)..]
  }

  method ActiveMessages(messages: seq<Message>) returns (active: seq<Message>)
    ensures active == Active(messages)
  {
    var last := -1;
    for i := 0 to |messages|
      invariant -1 <= last < i
      invariant last >= 0 ==> messages[last].role == "user"
      invariant forall j | last < j < i :: messages[j].role != "user"
    {
      if messages[i].role == "user" {
        last := i;
      }
    }
    assert last == LastUser(messages);
    if last <= 0 {
      return messages;
    }
    active := messages[last..];
  }

  ghost predicate IsSuffix<T>(s: seq<T>, whole: seq<T>) {
    |s| <= |whole| && whole[|whole| - |s|..] == s
  }

  lemma {:induction false} DoneAppend(a: seq<Evidence>, b: seq<Evidence>)
    ensures Done(a + b) == Done(a) + Done(b)
  {
    if a == [] {
      assert a + b == b;
    } else {
      assert (a + b)[1..] == a[1..] + b;
      DoneAppend(a[1..], b);
      Assoc(if a[0].result != [] then [a[0]] else [], Done(a[1..]), Done(b));
    }
  }

  lemma {:induction false} OpenAppend(a: seq<Evidence>, b: seq<Evidence>)
    ensures Open(a + b) == Open(a) + Open(b)
  {
    if a == [] {
      assert a + b == b;
    } else {
      assert (a + b)[1..] == a[1..] + b;
      OpenAppend(a[1..], b);
      Assoc(if a[0].result == [] then [a[0]] else [], Open(a[1..]), Open(b));
    }
  }

  lemma {:induction false} EvidenceSuffix(env: Env, messages: seq<Message>, k: nat)
    requires k <= |messages|
    ensures exists pre :: EvidenceOf(env, messages) == pre + EvidenceOf(env, messages[k..])
  {
    if k == 0 {
      assert messages[0..] == messages;
      assert EvidenceOf(env, messages) == [] + EvidenceOf(env, messages[0..]);
    } else {
      EvidenceSuffix(env, messages[1..], k - 1);
      assert messages[1..][k - 1..] == messages[k..];
      var pre :| EvidenceOf(env, messages[1..]) == pre + EvidenceOf(env, messages[k..]);
      var own := if messages[0].role == "assistant"
                 then CallEvidence(env, messages[0].toolCalls, messages[1..]) else [];
      Assoc(own, pre, EvidenceOf(env, messages[k..]));
    }
  }

  /** The ledger of the active turn is the tail of the whole ledger, wherever the turn starts: also
      when the user speaks between a call and its result. */
  lemma ActiveLedgerIsSuffix(env: Env, messages: seq<Message>)
    ensures IsSuffix(Done(EvidenceOf(env, Active(messages))), Done(EvidenceOf(env, messages)))
    ensures IsSuffix(Open(EvidenceOf(env, Active(messages))), Open(EvidenceOf(env, messages)))
  {
    var k := if LastUser(messages) <= 0 then 0 else LastUser(messages);
    EvidenceSuffix(env, messages, k);
    assert messages[0..] == messages;
    var pre :| EvidenceOf(env, messages) == pre + EvidenceOf(env, messages[k..]);
    DoneAppend(pre, EvidenceOf(env, messages[k..]));
    OpenAppend(pre, EvidenceOf(env, messages[k..]));
  }

  lemma {:induction false} CallIdsSuffix(messages: seq<Message>, k: nat)
    requires k <= |messages|
    ensures exists pre :: CallIds(messages) == pre + CallIds(messages[k..])
  {
    if k == 0 {
      assert messages[0..] == messages;
      assert CallIds(messages) == [] + CallIds(messages[0..]);
    } else {
      CallIdsFront(messages);
      CallIdsSuffix(messages[1..], k - 1);
      assert messages[1..][k - 1..] == messages[k..];
      var pre :| CallIds(messages[1..]) == pre + CallIds(messages[k..]);
      var own := if messages[0].role == "assistant" then Ids(messages[0].toolCalls) else [];
      Assoc(own, pre, CallIds(messages[k..]));
    }
  }

  /** The ids of the active turn of an accepted conversation are usable as keys. */
  lemma ActiveIds(messages: seq<Message>)
    requires Valid(messages)
    ensures Distinct(CallIds(Active(messages))) && "" !in CallIds(Active(messages))
  {
    OneResultPerCall(messages);
    var k := if LastUser(messages) <= 0 then 0 else LastUser(messages);
    CallIdsSuffix(messages, k);
    assert messages[0..] == messages;
    var pre :| CallIds(messages) == pre + CallIds(messages[k..]);
    DistinctAppend(pre, CallIds(messages[k..]));
  }

  lemma {:induction false} AnsweredSuffix(messages: seq<Message>, k: nat)
    requires k <= |messages| && Answered(ShapeOf(messages).rounds)
    ensures Answered(ShapeOf(messages[k..]).rounds)
  {
    if k == 0 {
      assert messages[0..] == messages;
    } else {
      var rounds, rest := ShapeOf(messages).rounds, ShapeOf(messages[1..]).rounds;
      forall r | r in rest ensures r in rounds {
        if messages[0].role == "assistant" {
          assert rounds[1..] == rest;
        }
      }
      AnsweredSuffix(messages[1..], k - 1);
      assert messages[1..][k - 1..] == messages[k..];
    }
  }

  /** The calls of the active turn are answered within it. */
  lemma ActiveEvident(env: Env, messages: seq<Message>)
    requires Valid(messages)
    ensures forall e | e in EvidenceOf(env, Active(messages)) :: Evident(env, Active(messages), e)
    ensures forall m | m in Active(messages) :: m in messages
  {
    ValidIffWellFormed(messages);
    var k := if LastUser(messages) <= 0 then 0 else LastUser(messages);
    assert messages[0..] == messages;
    AnsweredSuffix(messages, k);
    AnsweredEvident(env, messages[k..]);
  }

  // ---------------------------------------------------------------------------------------------
  // The loops
  // ---------------------------------------------------------------------------------------------

  method CollectEvidence(env: Env, messages: seq<Message>) returns (calls: map<string, Evidence>, order: seq<string>)
    ensures Table(calls, order) == Collect(env, Table(map[], []), messages)
  {
    calls, order := map[], [];
    assert messages[0..] == messages;
    for i := 0 to |messages|
      invariant Collect(env, Table(map[], []), messages) == Collect(env, Table(calls, order), messages[i..])
    {
      var m := messages[i];
      assert messages[i..][0] == m && messages[i..][1..] == messages[i + 1..];
      ghost var t := Table(calls, order);
      if m.role == "assistant" {
        assert m.toolCalls[0..] == m.toolCalls;
        for k := 0 to |m.toolCalls|
          invariant AddCalls(t, m.toolCalls) == AddCalls(Table(calls, order), m.toolCalls[k..])
        {
          var c := m.toolCalls[k];
          assert m.toolCalls[k..][0] == c && m.toolCalls[k..][1..] == m.toolCalls[k + 1..];
          if c.id != "" {
            calls := calls[c.id := Evidence(c.id, c.name, c.arguments, [], false)];
            order := order + [c.id];
          }
        }
      }
      if m.role == "tool" && m.toolCallId in calls {
        var e := calls[m.toolCallId];
        var result := ResultOf(env, m.content);
        calls := calls[m.toolCallId := e.(result := result, failed := env.failing(result))];
      }
    }
  }

  lemma PartitionLast(env: Env, es: seq<Evidence>, k: nat)
    requires k < |es|
    ensures Done(es[..k + 1]) == Done(es[..k]) + (if es[k].result != [] then [es[k]] else [])
    ensures Open(es[..k + 1]) == Open(es[..k]) + (if es[k].result == [] then [es[k]] else [])
    ensures Signatures(es[..k + 1]) == Signatures(es[..k]) + [Signature(es[k])]
    ensures FailureSignatures(env, es[..k + 1]) == FailureSignatures(env, es[..k]) + FailureSignature(env, es[k])
  {
    assert es[..k + 1] == es[..k] + [es[k]];
    DoneAppend(es[..k], [es[k]]);
    OpenAppend(es[..k], [es[k]]);
    assert es[..k + 1][..k] == es[..k];
  }

  lemma DistinctSnoc<T>(s: seq<T>, x: T)
    ensures Distinct(s + [x]) <==> Distinct(s) && x !in Elements(s)
    ensures Elements(s + [x]) == Elements(s) + {x}
  {
    DistinctAppend(s, [x]);
    assert Elements([x]) == {x};
  }

  /** One line of a counting map: `seen[key]++`. */
  method Count<K(==)>(seen: map<K, nat>, key: K, ghost keys: seq<K>) returns (seen': map<K, nat>, again: bool)
    requires seen.Keys == Elements(keys) && forall s | s in seen :: seen[s] >= 1
    ensures seen'.Keys == Elements(keys + [key]) && forall s | s in seen' :: seen'[s] >= 1
    ensures !Distinct(keys + [key]) <==> !Distinct(keys) || again
  {
    DistinctSnoc(keys, key);
    seen' := seen[key := (if key in seen then seen[key] else 0) + 1];
    again := seen'[key] >= 2;
  }

  method Summarise(env: Env, es: seq<Evidence>) returns (l: Ledger)
    ensures l == LedgerOf(env, es)
  {
    l := Ledger([], [], 0, false, false);
    var seenCall: map<string, nat>, seenFailure: map<string, nat> := map[], map[];
    for k := 0 to |es|
      invariant l == LedgerOf(env, es[..k])
      invariant seenCall.Keys == Elements(Signatures(es[..k]))
      invariant forall s | s in seenCall :: seenCall[s] >= 1
      invariant seenFailure.Keys == Elements(FailureSignatures(env, es[..k]))
      invariant forall s | s in seenFailure :: seenFailure[s] >= 1
    {
      var e := es[k];
      PartitionLast(env, es, k);
      var again: bool;
      l := l.(toolRounds := l.toolRounds + 1);
      seenCall, again := Count(seenCall, Signature(e), Signatures(es[..k]));
      l := l.(repeatedCall := l.repeatedCall || again);
      if e.result == [] {
        l := l.(pending := l.pending + [e]);
      } else {
        l := l.(completed := l.completed + [e]);
        if e.failed {
          var signature := Signature(e) + "\0" + env.normalize(e.result);
          seenFailure, again := Count(seenFailure, signature, FailureSignatures(env, es[..k]));
          l := l.(repeatedFailure := l.repeatedFailure || again);
        }
      }
      assert FailureSignature(env, e) == [] ==> FailureSignatures(env, es[..k + 1]) == FailureSignatures(env, es[..k]);
    }
    assert es[..|es|] == es;
  }

  /** A name or arguments without the separator of the signatures. */
  predicate NoSeparator(s: string) {
    '\0' !in s
  }

  lemma SeparatorApart(a: string, b: string, c: string, d: string)
    requires |a| < |c| && NoSeparator(c)
    ensures a + "\0" + b != c + "\0" + d
  {
    assert (a + "\0" + b)[|a|] == '\0' && (c + "\0" + d)[|a|] == c[|a|];
  }

  lemma SplitAtSeparator(a: string, b: string, c: string, d: string)
    requires NoSeparator(a) && NoSeparator(c)
    ensures a + "\0" + b == c + "\0" + d <==> a == c && b == d
  {
    var left, right := a + "\0" + b, c + "\0" + d;
    if |a| < |c| {
      SeparatorApart(a, b, c, d);
    } else if |c| < |a| {
      SeparatorApart(c, d, a, b);
    } else if left == right {
      assert a == left[..|a|] && c == right[..|c|];
      assert b == left[|a| + 1..] && d == right[|c| + 1..];
    }
  }

  /** Two pieces of evidence for the same name and arguments. */
  predicate SameRequest(a: Evidence, b: Evidence) {
    a.name == b.name && a.arguments == b.arguments
  }

  /** The same request failed twice with the same normalised failure. */
  predicate SameFailure(env: Env, a: Evidence, b: Evidence) {
    && SameRequest(a, b) && a.result != [] && a.failed && b.result != [] && b.failed
    && env.normalize(a.result) == env.normalize(b.result)
  }

  ghost predicate Separable(es: seq<Evidence>) {
    forall e | e in es :: NoSeparator(e.name) && NoSeparator(e.arguments)
  }

  lemma SignatureExactly(env: Env, a: Evidence, b: Evidence)
    requires Separable([a, b])
    ensures Signature(a) == Signature(b) <==> SameRequest(a, b)
    ensures FailureSignature(env, a) != [] && FailureSignature(env, a) == FailureSignature(env, b) <==>
              SameFailure(env, a, b)
  {
    assert a in [a, b] && b in [a, b];
    SplitAtSeparator(a.name, a.arguments, b.name, b.arguments);
    var x, y := env.normalize(a.result), env.normalize(b.result);
    SplitAtSeparator(a.arguments, x, b.arguments, y);
    SplitAtSeparator(a.name, a.arguments + "\0" + x, b.name, b.arguments + "\0" + y);
    assert Signature(a) + "\0" + x == a.name + "\0" + (a.arguments + "\0" + x);
    assert Signature(b) + "\0" + y == b.name + "\0" + (b.arguments + "\0" + y);
  }

  lemma {:induction false} FailureListed(env: Env, es: seq<Evidence>, s: string)
    ensures s in FailureSignatures(env, es) <==> exists k :: 0 <= k < |es| && FailureSignature(env, es[k]) == [s]
  {
    if es != [] {
      var n := |es| - 1;
      FailureListed(env, es[..n], s);
      if k :| 0 <= k < n && FailureSignature(env, es[..n][k]) == [s] {
        assert es[k] == es[..n][k];
      }
      if k :| 0 <= k < |es| && FailureSignature(env, es[k]) == [s] {
        assert k < n ==> es[..n][k] == es[k];
      }
    }
  }

  /** The flag for repeated calls says that two calls have the same name and arguments. */
  lemma RepeatedCallExactly(env: Env, es: seq<Evidence>)
    requires Separable(es)
    ensures LedgerOf(env, es).repeatedCall <==> exists i, j :: 0 <= i < j < |es| && SameRequest(es[i], es[j])
  {
    var s := Signatures(es);
    forall i, j | 0 <= i < j < |es| ensures s[i] == s[j] <==> SameRequest(es[i], es[j]) {
      SignatureExactly(env, es[i], es[j]);
    }
    if i, j :| 0 <= i < j < |es| && SameRequest(es[i], es[j]) {
      assert s[i] == s[j];
    }
  }

  /** The last piece of evidence repeats a failure. */
  ghost predicate LastRepeats(env: Env, es: seq<Evidence>) {
    es != [] && exists i :: 0 <= i < |es| - 1 && SameFailure(env, es[i], es[|es| - 1])
  }

  lemma LastFailure(env: Env, es: seq<Evidence>)
    requires es != [] && Separable(es)
    ensures Distinct(FailureSignatures(env, es)) <==>
              Distinct(FailureSignatures(env, es[..|es| - 1])) && !LastRepeats(env, es)
  {
    var n := |es| - 1;
    var front, last := FailureSignatures(env, es[..n]), FailureSignature(env, es[n]);
    forall i | 0 <= i < n
      ensures SameFailure(env, es[i], es[n]) <==> last != [] && FailureSignature(env, es[..n][i]) == last
    {
      SignatureExactly(env, es[i], es[n]);
    }
    if last != [] {
      FailureListed(env, es[..n], last[0]);
      DistinctSnoc(front, last[0]);
      assert last == [last[0]];
    } else {
      assert front + [] == front;
    }
  }

  ghost predicate FailureTwice(env: Env, es: seq<Evidence>) {
    exists i, j :: 0 <= i < j < |es| && SameFailure(env, es[i], es[j])
  }

  lemma PairAtEnd(env: Env, es: seq<Evidence>)
    requires es != []
    ensures FailureTwice(env, es) <==> FailureTwice(env, es[..|es| - 1]) || LastRepeats(env, es)
  {
    var n := |es| - 1;
    assert forall i | 0 <= i < n :: es[..n][i] == es[i];
    if i, j :| 0 <= i < j < |es| && SameFailure(env, es[i], es[j]) {
      assert j < n ==> SameFailure(env, es[..n][i], es[..n][j]);
    }
  }

  /** The flag for repeated failures says that two of them are the same failure of the same request. */
  lemma {:induction false} RepeatedFailureExactly(env: Env, es: seq<Evidence>)
    requires Separable(es)
    ensures LedgerOf(env, es).repeatedFailure <==> FailureTwice(env, es)
  {
    if es != [] {
      RepeatedFailureExactly(env, es[..|es| - 1]);
      LastFailure(env, es);
      PairAtEnd(env, es);
    }
  }

  lemma {:induction false} AddCallsOk(t: Table, calls: seq<ToolCall>)
    requires TableOk(t)
    ensures TableOk(AddCalls(t, calls))
    decreases |calls|
  {
    if calls != [] {
      var c := calls[0];
      var added := Table(t.calls[c.id := Evidence(c.id, c.name, c.arguments, [], false)], t.order + [c.id]);
      assert TableOk(added);
      AddCallsOk(if c.id == "" then t else added, calls[1..]);
    }
  }

  lemma {:induction false} CollectOk(env: Env, t: Table, messages: seq<Message>)
    requires TableOk(t)
    ensures TableOk(Collect(env, t, messages))
    decreases |messages|
  {
    if messages != [] {
      if messages[0].role == "assistant" {
        AddCallsOk(t, messages[0].toolCalls);
      }
      CollectOk(env, AddMessage(env, t, messages[0]), messages[1..]);
    }
  }

  /** With usable ids, the table lists one piece of evidence for each call. */
  lemma CollectedEvidence(env: Env, messages: seq<Message>)
    requires Distinct(CallIds(messages)) && "" !in CallIds(messages)
    ensures TableOk(Collect(env, Table(map[], []), messages))
    ensures Listed(Collect(env, Table(map[], []), messages)) == EvidenceOf(env, messages)
  {
    var start := Table(map[], []);
    assert start.order + CallIds(messages) == CallIds(messages);
    CollectLists(env, start, messages);
    assert UpdatedAll(env, Listed(start), messages) == [];
    assert [] + EvidenceOf(env, messages) == EvidenceOf(env, messages);
  }

  method BuildAgentLedger(env: Env, messages: seq<Message>) returns (l: Ledger)
    ensures TableOk(Collect(env, Table(map[], []), messages))
    ensures l == LedgerOf(env, Listed(Collect(env, Table(map[], []), messages)))
    ensures Distinct(CallIds(messages)) && "" !in CallIds(messages) ==> l == LedgerOf(env, EvidenceOf(env, messages))
  {
    var calls, order := CollectEvidence(env, messages);
    CollectOk(env, Table(map[], []), messages);
    l := Summarise(env, Listed(Table(calls, order)));
    if Distinct(CallIds(messages)) && "" !in CallIds(messages) {
      CollectedEvidence(env, messages);
    }
  }

  /** `None` lets the turn go on. */
  datatype Refusal = RoundLimit(rounds: int) | PendingResults

  function MaxRounds(maxRounds: int): int {
    if maxRounds <= 0 then 32 else maxRounds
  }

  function CanContinue(l: Ledger, maxRounds: int): Option<Refusal> {
    if l.toolRounds >= MaxRounds(maxRounds) then Some(RoundLimit(MaxRounds(maxRounds)))
    else if |l.pending| > 0 then Some(PendingResults)
    else None
  }

  /** A result of the active turn that answers one of its calls. */
  predicate AnswersActive(messages: seq<Message>, m: Message) {
    m in Active(messages) && m.role == "tool" && m.toolCallId in CallIds(Active(messages))
  }

  /** What the caller can see of a request that may go on: the current turn has calls to spare, and
      no result that answers one of its calls is blank. */
  ghost predicate MayGoOn(env: Env, messages: seq<Message>, maxRounds: int) {
    && |CallsOf(Active(messages))| < (if maxRounds <= 0 then 32 else maxRounds)
    && forall m | AnswersActive(messages, m) :: !Blank(env, m)
  }

  lemma {:induction false} EvidenceFor(env: Env, messages: seq<Message>, id: string)
    requires id in CallIds(messages)
    ensures exists e :: e in EvidenceOf(env, messages) && e.id == id
  {
    EvidenceInCallOrder(env, messages);
    var k :| 0 <= k < |CallIds(messages)| && CallIds(messages)[k] == id;
    assert CallsOf(messages)[k].id == id && EvidenceOf(env, messages)[k] in EvidenceOf(env, messages);
  }

  /** The pending list of the active turn is empty if and only if no answer in it is blank. */
  lemma NothingPending(env: Env, messages: seq<Message>)
    requires Valid(messages)
    ensures Open(EvidenceOf(env, Active(messages))) == [] <==> forall m | AnswersActive(messages, m) :: !Blank(env, m)
  {
    var active := Active(messages);
    var es := EvidenceOf(env, active);
    ActiveEvident(env, messages);
    PartitionMembers(es);
    EvidenceInCallOrder(env, active);
    if Open(es) == [] {
      forall m | AnswersActive(messages, m) ensures !Blank(env, m) {
        EvidenceFor(env, active, m.toolCallId);
        var e :| e in es && e.id == m.toolCallId;
        AnsweredSomewhere(env, messages, e);
        SettledByAnswer(env, messages, e, m);
        assert e !in Open(es);
      }
    } else {
      var e := Open(es)[0];
      assert e in Open(es) && Evident(env, active, e);
      var m :| m in active && m.role == "tool" && m.toolCallId == e.id && e.result == ResultOf(env, m.content);
      IdIsCalled(env, active, e);
      BlankExactly(env, m);
      assert AnswersActive(messages, m) && Blank(env, m);
    }
  }

  lemma AnsweredSomewhere(env: Env, messages: seq<Message>, e: Evidence)
    requires Valid(messages) && e in EvidenceOf(env, Active(messages))
    ensures Evident(env, messages, e)
  {
    ActiveEvident(env, messages);
    var m :| m in Active(messages) && m.role == "tool" && m.toolCallId == e.id
      && e.result == ResultOf(env, m.content) && e.failed == env.failing(e.result);
    assert m in messages;
  }

  lemma IdIsCalled(env: Env, messages: seq<Message>, e: Evidence)
    requires e in EvidenceOf(env, messages)
    ensures e.id in CallIds(messages)
  {
    EvidenceInCallOrder(env, messages);
    var k :| 0 <= k < |EvidenceOf(env, messages)| && EvidenceOf(env, messages)[k] == e;
    assert Ids(CallsOf(messages))[k] == e.id;
  }

  /** An accepted conversation may go on if and only if the current turn has calls to spare and every
      result that answers one of its calls has text that is not blank. */
  lemma ContinueExactly(env: Env, messages: seq<Message>, maxRounds: int)
    requires Valid(messages)
    ensures CanContinue(LedgerOf(env, EvidenceOf(env, Active(messages))), maxRounds).None? <==>
              MayGoOn(env, messages, maxRounds)
  {
    EvidenceInCallOrder(env, Active(messages));
    NothingPending(env, messages);
  }

  /** A question, one call and a blank answer to it. */
  function BlankAnswer(call: ToolCall, blank: string): seq<Message> {
    [Message("user", Str("?"), "", []),
     Message("assistant", Null, "", [call]),
     Message("tool", Str(blank), call.id, [])]
  }

  lemma BlankAnswerValid(call: ToolCall, blank: string)
    requires call.id != ""
    ensures Valid(BlankAnswer(call, blank))
    ensures CallIds(BlankAnswer(call, blank)) == [call.id]
    ensures Active(BlankAnswer(call, blank)) == BlankAnswer(call, blank)
  {
    var ms := BlankAnswer(call, blank);
    assert ms[1..][1..] == [ms[2]] && ms[2..][1..] == [];
    assert ShapeOf([ms[2]]) == Shape([call.id], []);
    assert ms[1..] == [ms[1], ms[2]] && [ms[1], ms[2]][1..] == [ms[2]];
    assert Ids([call]) == [call.id];
    assert ShapeOf(ms) == Shape([], [Round([call.id], [call.id])]);
    assert [Round([call.id], [call.id])][1..] == [];
    assert AllCalls(ShapeOf(ms).rounds) == [call.id];
    ValidIffWellFormed(ms);
    assert ms[2].role != "user" && ms[1].role != "user";
  }

  lemma BlankAnswerStops(env: Env, call: ToolCall, blank: string, maxRounds: int)
    requires call.id != "" && forall k | 0 <= k < |blank| :: IsSpace(blank[k])
    ensures !MayGoOn(env, BlankAnswer(call, blank), maxRounds)
  {
    var ms := BlankAnswer(call, blank);
    BlankAnswerValid(call, blank);
    assert ms[2] in ms && call.id in CallIds(ms);
    assert AnswersActive(ms, ms[2]) && Blank(env, ms[2]);
  }

  /** Input on which it happens: the validator accepts the conversation, and the next turn is refused
      because the one result is blank. */
  lemma BlankResultRefuses(env: Env, call: ToolCall, blank: string, maxRounds: int)
    requires call.id != "" && forall k | 0 <= k < |blank| :: IsSpace(blank[k])
    ensures var ms := BlankAnswer(call, blank);
            var refusal := CanContinue(LedgerOf(env, EvidenceOf(env, Active(ms))), maxRounds);
            && Valid(ms)
            && refusal.Some?
            && (maxRounds != 1 ==> refusal == Some(PendingResults))
  {
    var ms := BlankAnswer(call, blank);
    BlankAnswerValid(call, blank);
    EvidenceInCallOrder(env, ms);
    OneRound(LedgerOf(env, EvidenceOf(env, Active(ms))), maxRounds);
    BlankAnswerStops(env, call, blank, maxRounds);
    ContinueExactly(env, ms, maxRounds);
  }

  lemma OneRound(l: Ledger, maxRounds: int)
    ensures l.toolRounds <= 1 && maxRounds != 1 && CanContinue(l, maxRounds).Some? ==>
              CanContinue(l, maxRounds) == Some(PendingResults)
  {
  }

  /** What the handler does with a request before it talks to the model. */
  datatype Admission = Admitted | Violation(error: ProtocolError) | Refused(refusal: Refusal)

  method Admit(env: Env, messages: seq<Message>, maxRounds: int) returns (a: Admission)
    ensures a.Violation? <==> !WellFormed(ShapeOf(messages))
    ensures a.Admitted? <==> WellFormed(ShapeOf(messages)) && MayGoOn(env, messages, maxRounds)
    ensures a.Refused? ==>
              var n := if maxRounds <= 0 then 32 else maxRounds;
              a.refusal == if |CallsOf(Active(messages))| >= n then RoundLimit(n) else PendingResults
  {
    var err := ValidateToolConversation(messages);
    if err.Some? {
      return Violation(err.value);
    }
    ValidIffWellFormed(messages);
    var active := ActiveMessages(messages);
    ActiveIds(messages);
    var l := BuildAgentLedger(env, active);
    ContinueExactly(env, messages, maxRounds);
    EvidenceInCallOrder(env, active);
    var refusal := CanContinue(l, maxRounds);
    a := if refusal.Some? then Refused(refusal.value) else Admitted;
  }
}
