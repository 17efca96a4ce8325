/** The tool loop across turns: repeated calls are filtered, turns are limited, and the number of
    calls one user turn can cause is bounded. */
module AgentLoop {
  import opened Text
  import opened Protocol
  import opened ToolConversation
  import Ledger = AgentLedger

  /** `lower` is strings.ToLower, `configured` the calls per turn and `maxRounds` the rounds per user
      turn that the settings allow. */
  datatype Config = Config(codec: Codec, lower: string -> string, configured: int, maxRounds: int)

  /** Arguments that are JSON are compared by value, others by their trimmed text. */
  function Canonical(codec: Codec, args: string): string {
    var s := Trim(args);
    match codec.decode(s)
    case Some(v) => codec.encode(v)
    case None => s
  }

  function Key(codec: Codec, name: string, args: string): (string, string) {
    (name, Canonical(codec, args))
  }

  function CallKeys(codec: Codec, calls: seq<ToolCall>): (r: seq<(string, string)>)
    ensures |r| == |calls|
    ensures forall k :: 0 <= k < |calls| ==> r[k] == Key(codec, calls[k].name, calls[k].arguments)
  {
    seq(|calls|, k requires 0 <= k < |calls| => Key(codec, calls[k].name, calls[k].arguments))
  }

  predicate HasCompleted(codec: Codec, completed: seq<Ledger.Evidence>, c: ToolCall) {
    exists k :: 0 <= k < |completed| &&
      Key(codec, completed[k].name, completed[k].arguments) == Key(codec, c.name, c.arguments)
  }

  function Unfinished(codec: Codec, calls: seq<ToolCall>, completed: seq<Ledger.Evidence>): seq<ToolCall> {
    if calls == [] then []
    else
      var last := calls[|calls| - 1];
      Unfinished(codec, calls[..|calls| - 1], completed) + if HasCompleted(codec, completed, last) then [] else [last]
  }

  const MUTATING := ["exec", "shell", "command", "write", "edit", "update", "delete", "remove", "move", "rename",
                     "create", "patch", "apply", "install", "run"]
  const READ_ONLY := ["read", "list", "search", "find", "get", "fetch", "browser", "lookup", "inspect", "stat",
                      "status", "describe", "info"]

  predicate Mentions(name: string, words: seq<string>) {
    exists k :: 0 <= k < |words| && Contains(name, words[k])
  }

  predicate Parallelisable(cfg: Config, c: ToolCall) {
    var name := cfg.lower(Trim(c.name));
    name != "" && !Mentions(name, MUTATING) && Mentions(name, READ_ONLY)
  }

  function AdaptiveLimit(cfg: Config, calls: seq<ToolCall>): int {
    if |calls| < 2 || cfg.configured < 2 then 1
    else if exists k :: 0 <= k < |calls| && !Parallelisable(cfg, calls[k]) then 1
    else cfg.configured
  }

  function LimitCalls(calls: seq<ToolCall>, n: int): seq<ToolCall> {
    var n := if n < 1 then 1 else n;
    if |calls| > n then calls[..n] else calls
  }

  /** The limit that every path puts on a batch before it is written. */
  function Limited(cfg: Config, calls: seq<ToolCall>): seq<ToolCall> {
    LimitCalls(calls, AdaptiveLimit(cfg, calls))
  }

  /** What the streaming router turns the model's candidates into. */
  function Issue(cfg: Config, candidates: seq<ToolCall>, completed: seq<Ledger.Evidence>): seq<ToolCall> {
    Limited(cfg, Unfinished(cfg.codec, candidates, completed))
  }

  function PerTurn(cfg: Config): int {
    if cfg.configured < 1 then 1 else cfg.configured
  }

  // ---------------------------------------------------------------------------------------------
  // One turn
  // ---------------------------------------------------------------------------------------------

  lemma {:induction false} UnfinishedExactly(codec: Codec, calls: seq<ToolCall>, completed: seq<Ledger.Evidence>)
    ensures forall c :: c in Unfinished(codec, calls, completed) <==> c in calls && !HasCompleted(codec, completed, c)
  {
    if calls != [] {
      var k := |calls| - 1;
      assert calls == calls[..k] + [calls[k]];
      UnfinishedExactly(codec, calls[..k], completed);
    }
  }

  /** A limit keeps the first calls, and never fewer than one. */
  lemma LimitExactly(calls: seq<ToolCall>, n: int)
    ensures LimitCalls(calls, n) <= calls
    ensures |calls| <= 1 ==> LimitCalls(calls, n) == calls
    ensures |calls| > 1 ==> |LimitCalls(calls, n)| == if n <= 1 then 1 else if n <= |calls| then n else |calls|
  {
  }

  /** A batch has at most the configured number of calls, the first ones that were found, and more
      than one only when every one of them looks read-only. */
  lemma LimitedBatch(cfg: Config, calls: seq<ToolCall>)
    ensures var batch := Limited(cfg, calls);
            && |batch| <= PerTurn(cfg)
            && (cfg.configured <= 1 ==> |batch| <= 1)
            && batch <= calls
            && (calls != [] ==> batch != [])
            && (|batch| > 1 ==> forall c | c in batch :: LooksReadOnly(cfg.lower(Trim(c.name))))
            && (cfg.configured >= 2 && (forall c | c in calls :: LooksReadOnly(cfg.lower(Trim(c.name)))) ==>
                  |batch| == if |calls| <= cfg.configured then |calls| else cfg.configured)
  {
    forall c ensures Parallelisable(cfg, c) <==> LooksReadOnly(cfg.lower(Trim(c.name))) {
      ReadOnlyExactly(cfg, c);
    }
  }

  /** A lower-case name with a reading word and without any word for a change. */
  predicate LooksReadOnly(name: string) {
    && (exists w :: w in READ_ONLY && Contains(name, w))
    && (forall w | w in MUTATING :: !Contains(name, w))
  }

  lemma ReadOnlyExactly(cfg: Config, c: ToolCall)
    ensures Parallelisable(cfg, c) <==> LooksReadOnly(cfg.lower(Trim(c.name)))
  {
    var name := cfg.lower(Trim(c.name));
    if Parallelisable(cfg, c) {
      var k :| 0 <= k < |READ_ONLY| && Contains(name, READ_ONLY[k]);
      assert READ_ONLY[k] in READ_ONLY;
    }
  }

  /** The streaming router issues a limited batch of candidates that were not completed before. */
  lemma IssueLimits(cfg: Config, candidates: seq<ToolCall>, completed: seq<Ledger.Evidence>)
    ensures var calls := Issue(cfg, candidates, completed);
            && |calls| <= PerTurn(cfg)
            && (forall c | c in calls :: c in candidates && !HasCompleted(cfg.codec, completed, c))
            && (|calls| > 1 ==> forall c | c in calls :: LooksReadOnly(cfg.lower(Trim(c.name))))
  {
    LimitedBatch(cfg, Unfinished(cfg.codec, candidates, completed));
    var all := Unfinished(cfg.codec, candidates, completed);
    UnfinishedExactly(cfg.codec, candidates, completed);
    assert forall c | c in Issue(cfg, candidates, completed) :: c in all;
  }

  // ---------------------------------------------------------------------------------------------
  // What it means for two calls to be the same
  // ---------------------------------------------------------------------------------------------

  /** What the codec has read, it reads back. */
  ghost predicate ReadsBack(codec: Codec) {
    forall s: string :: codec.decode(s).Some? ==> Faithful(codec, codec.decode(s).value)
  }

  /** Both arguments are JSON for the same value, or neither is JSON and they are the same text up to
      outer white space. */
  predicate SameArguments(codec: Codec, a: string, b: string) {
    var x, y := codec.decode(Trim(a)), codec.decode(Trim(b));
    if x.Some? && y.Some? then x.value == y.value else x.None? && y.None? && Trim(a) == Trim(b)
  }

  predicate FaithfulArguments(codec: Codec, a: string) {
    codec.decode(Trim(a)).Some? ==> Faithful(codec, codec.decode(Trim(a)).value)
  }

  /** Canonical arguments are equal if and only if the arguments mean the same. */
  lemma CanonicalExactly(codec: Codec, a: string, b: string)
    requires FaithfulArguments(codec, a) && FaithfulArguments(codec, b)
    ensures Canonical(codec, a) == Canonical(codec, b) <==> SameArguments(codec, a, b)
  {
  }

  predicate SameCall(codec: Codec, c: ToolCall, d: ToolCall) {
    c.name == d.name && SameArguments(codec, c.arguments, d.arguments)
  }

  /** A completed call is the same as `c`. */
  predicate DoneBefore(codec: Codec, completed: seq<Ledger.Evidence>, c: ToolCall) {
    exists e :: e in completed && e.name == c.name && SameArguments(codec, e.arguments, c.arguments)
  }

  lemma HasCompletedExactly(codec: Codec, completed: seq<Ledger.Evidence>, c: ToolCall)
    requires ReadsBack(codec)
    ensures HasCompleted(codec, completed, c) <==> DoneBefore(codec, completed, c)
  {
    forall e | e in completed
      ensures Key(codec, e.name, e.arguments) == Key(codec, c.name, c.arguments) <==>
                e.name == c.name && SameArguments(codec, e.arguments, c.arguments)
    {
      CanonicalExactly(codec, e.arguments, c.arguments);
    }
    if HasCompleted(codec, completed, c) {
      var k :| 0 <= k < |completed| &&
               Key(codec, completed[k].name, completed[k].arguments) == Key(codec, c.name, c.arguments);
      assert completed[k] in completed;
    }
  }

  /** The positions of the candidates that are kept, in order: those whose call was not done before. */
  ghost predicate KeptAt(codec: Codec, calls: seq<ToolCall>, completed: seq<Ledger.Evidence>, kept: seq<ToolCall>,
                         at: seq<nat>)
  {
    && |at| == |kept|
    && (forall i, j | 0 <= i < j < |at| :: at[i] < at[j])
    && (forall i | 0 <= i < |at| :: at[i] < |calls| && kept[i] == calls[at[i]])
    && (forall k | 0 <= k < |calls| :: k in at <==> !DoneBefore(codec, completed, calls[k]))
  }

  lemma OneMoreAt(codec: Codec, calls: seq<ToolCall>, completed: seq<Ledger.Evidence>, kept: seq<ToolCall>,
                  at: seq<nat>, c: ToolCall)
    requires KeptAt(codec, calls, completed, kept, at)
    ensures DoneBefore(codec, completed, c) ==> KeptAt(codec, calls + [c], completed, kept, at)
    ensures !DoneBefore(codec, completed, c) ==>
              KeptAt(codec, calls + [c], completed, kept + [c], at + [|calls|])
  {
    var all, n := calls + [c], |calls|;
    assert forall k | k in at :: k < n;
    var more := at + [n];
    assert more[|at|] == n && forall k | k in at :: k in more;
    forall k | 0 <= k < n && k in more ensures k in at {
    }
  }

  /** A candidate is dropped if and only if a completed call has the same name and the same arguments,
      as values where they are JSON and as text where they are not; the others keep their order. */
  lemma {:induction false} DroppedExactly(codec: Codec, calls: seq<ToolCall>, completed: seq<Ledger.Evidence>)
    returns (at: seq<nat>)
    requires ReadsBack(codec)
    ensures KeptAt(codec, calls, completed, Unfinished(codec, calls, completed), at)
  {
    if calls == [] {
      at := [];
    } else {
      var n := |calls| - 1;
      var front := DroppedExactly(codec, calls[..n], completed);
      var kept := Unfinished(codec, calls[..n], completed);
      HasCompletedExactly(codec, completed, calls[n]);
      OneMoreAt(codec, calls[..n], completed, kept, front, calls[n]);
      assert calls == calls[..n] + [calls[n]];
      at := if HasCompleted(codec, completed, calls[n]) then front else front + [n];
    }
  }

  /** Calls of one tool with different arguments are not taken for each other. */
  lemma OtherArgumentsKept(codec: Codec, e: Ledger.Evidence, c: ToolCall)
    requires ReadsBack(codec) && e.name == c.name
    requires codec.decode(Trim(e.arguments)) == Some(Obj(map["path" := Str("a")]))
    requires codec.decode(Trim(c.arguments)) == Some(Obj(map["path" := Str("b")]))
    ensures Unfinished(codec, [c], [e]) == [c]
  {
    var x, y := map["path" := Str("a")], map["path" := Str("b")];
    assert x["path"] != y["path"];
    HasCompletedExactly(codec, [e], c);
    assert [c][..0] == [];
  }

  /** No two of the calls are the same. */
  predicate NoneSame(codec: Codec, calls: seq<ToolCall>) {
    forall i, j | 0 <= i < j < |calls| :: !SameCall(codec, calls[i], calls[j])
  }

  lemma KeysByMeaning(codec: Codec, calls: seq<ToolCall>)
    requires ReadsBack(codec)
    ensures Distinct(CallKeys(codec, calls)) <==> NoneSame(codec, calls)
  {
    var keys := CallKeys(codec, calls);
    forall i, j | 0 <= i < j < |calls| ensures keys[i] == keys[j] <==> SameCall(codec, calls[i], calls[j]) {
      CanonicalExactly(codec, calls[i].arguments, calls[j].arguments);
    }
  }

  method AlreadyCompleted(codec: Codec, completed: seq<Ledger.Evidence>, c: ToolCall) returns (done: bool)
    ensures done <==> HasCompleted(codec, completed, c)
  {
    for j := 0 to |completed|
      invariant forall i :: 0 <= i < j ==>
                  Key(codec, completed[i].name, completed[i].arguments) != Key(codec, c.name, c.arguments)
    {
      if Key(codec, completed[j].name, completed[j].arguments) == Key(codec, c.name, c.arguments) {
        return true;
      }
    }
    done := false;
  }

  /** `calls[:0]` and append: the kept calls are moved to the front of the same array. */
  method FilterCompletedCalls(codec: Codec, calls: array<ToolCall>, completed: seq<Ledger.Evidence>) returns (n: nat)
    modifies calls
    ensures n <= calls.Length
    ensures calls[..n] == Unfinished(codec, old(calls[..]), completed)
    ensures ReadsBack(codec) ==> exists at :: KeptAt(codec, old(calls[..]), completed, calls[..n], at)
  {
    ghost var was := calls[..];
    n := 0;
    for k := 0 to calls.Length
      invariant n <= k
      invariant calls[..n] == Unfinished(codec, was[..k], completed)
      invariant forall j | k <= j < calls.Length :: calls[j] == was[j]
    {
      var c := calls[k];
      var done := AlreadyCompleted(codec, completed, c);
      UnfinishedSnoc(codec, was, k, completed);
      if !done {
        ghost var kept := calls[..n];
        calls[n] := c;
        n := n + 1;
        assert calls[..n] == kept + [c];
      }
    }
    assert was[..calls.Length] == was;
    if ReadsBack(codec) {
      ghost var at := DroppedExactly(codec, was, completed);
    }
  }

  lemma UnfinishedSnoc(codec: Codec, calls: seq<ToolCall>, k: nat, completed: seq<Ledger.Evidence>)
    requires k < |calls|
    ensures Unfinished(codec, calls[..k + 1], completed) ==
              Unfinished(codec, calls[..k], completed) +
              if HasCompleted(codec, completed, calls[k]) then [] else [calls[k]]
  {
    assert calls[..k + 1][..k] == calls[..k];
  }

  // ---------------------------------------------------------------------------------------------
  // Runs
  // ---------------------------------------------------------------------------------------------

  /** One round trip: the batch of calls that was written, by whatever path, and what the client
      appends after echoing them. */
  datatype Turn = Turn(issued: seq<ToolCall>, replies: seq<Message>)

  function Added(t: Turn): seq<Message> {
    [Message("assistant", Null, "", t.issued)] + t.replies
  }

  function Next(messages: seq<Message>, t: Turn): seq<Message> {
    messages + Added(t)
  }

  /** Each request is admitted, and each batch went through the limit. */
  ghost predicate Run(env: Ledger.Env, cfg: Config, messages: seq<Message>, turns: seq<Turn>)
    decreases |turns|
  {
    turns == [] ||
    (&& Valid(messages) && Ledger.MayGoOn(env, messages, cfg.maxRounds)
     && |turns[0].issued| <= PerTurn(cfg)
     && (forall m | m in turns[0].replies :: m.role != "assistant")
     && Run(env, cfg, Next(messages, turns[0]), turns[1..]))
  }

  function Final(messages: seq<Message>, turns: seq<Turn>): seq<Message>
    decreases |turns|
  {
    if turns == [] then messages else Final(Next(messages, turns[0]), turns[1..])
  }

  function TotalIssued(turns: seq<Turn>): nat {
    if turns == [] then 0 else |turns[0].issued| + TotalIssued(turns[1..])
  }

  lemma {:induction false} LastUserStays(a: seq<Message>, b: seq<Message>)
    requires forall m | m in b :: m.role != "user"
    ensures Ledger.LastUser(a + b) == Ledger.LastUser(a)
  {
    forall i | |a| <= i < |a + b| ensures (a + b)[i].role != "user" {
      assert b[i - |a|] in b;
    }
    assert forall i | 0 <= i < |a| :: (a + b)[i] == a[i];
  }

  lemma ActiveGrows(a: seq<Message>, b: seq<Message>)
    requires forall m | m in b :: m.role != "user"
    ensures Ledger.Active(a + b) == Ledger.Active(a) + b
  {
    LastUserStays(a, b);
  }

  lemma {:induction false} CallsAppend(a: seq<Message>, b: seq<Message>)
    ensures Ledger.CallsOf(a + b) == Ledger.CallsOf(a) + Ledger.CallsOf(b)
  {
    if a == [] {
      assert a + b == b;
    } else {
      assert (a + b)[1..] == a[1..] + b;
      CallsAppend(a[1..], b);
      Assoc(if a[0].role == "assistant" then a[0].toolCalls else [], Ledger.CallsOf(a[1..]), Ledger.CallsOf(b));
    }
  }

  lemma {:induction false} NoCallsIn(messages: seq<Message>)
    requires forall m | m in messages :: m.role != "assistant"
    ensures Ledger.CallsOf(messages) == []
  {
    if messages != [] {
      assert messages[0] in messages;
      NoCallsIn(messages[1..]);
    }
  }

  /** Each turn adds exactly the calls it issued to the conversation. */
  lemma NextCalls(messages: seq<Message>, t: Turn)
    requires forall m | m in t.replies :: m.role != "assistant"
    ensures Ledger.CallsOf(Added(t)) == t.issued
    ensures Ledger.CallsOf(Next(messages, t)) == Ledger.CallsOf(messages) + t.issued
  {
    assert Added(t)[1..] == t.replies;
    NoCallsIn(t.replies);
    assert t.issued + [] == t.issued;
    CallsAppend(messages, Added(t));
  }

  /** Within one user turn no run issues more calls than the rounds allow, up to one last batch. */
  lemma {:induction false} CallsPerUserTurn(env: Ledger.Env, cfg: Config, messages: seq<Message>, turns: seq<Turn>)
    requires Run(env, cfg, messages, turns)
    requires forall t, m | t in turns && m in t.replies :: m.role != "user"
    ensures |Ledger.CallsOf(Ledger.Active(Final(messages, turns)))| ==
              |Ledger.CallsOf(Ledger.Active(messages))| + TotalIssued(turns)
    ensures turns != [] ==>
              |Ledger.CallsOf(Ledger.Active(messages))| + TotalIssued(turns)
                <= Ledger.MaxRounds(cfg.maxRounds) - 1 + PerTurn(cfg)
    decreases |turns|
  {
    if turns != [] {
      var t := turns[0];
      assert t in turns && forall u | u in turns[1..] :: u in turns;
      ActiveNext(messages, t);
      CallsPerUserTurn(env, cfg, Next(messages, t), turns[1..]);
    }
  }

  lemma ActiveNext(messages: seq<Message>, t: Turn)
    requires forall m | m in t.replies :: m.role != "assistant" && m.role != "user"
    ensures Ledger.CallsOf(Ledger.Active(Next(messages, t))) == Ledger.CallsOf(Ledger.Active(messages)) + t.issued
  {
    forall m | m in Added(t) ensures m.role != "user" {
      assert m == Added(t)[0] || m in t.replies;
    }
    NextCalls(messages, t);
    ActiveGrows(messages, Added(t));
    CallsAppend(Ledger.Active(messages), Added(t));
  }

  /** A user turn that starts afresh causes at most `maxRounds - 1` calls plus one batch. */
  lemma FreshTurnBound(env: Ledger.Env, cfg: Config, messages: seq<Message>, turns: seq<Turn>)
    requires messages != [] && messages[|messages| - 1].role == "user"
    requires Run(env, cfg, messages, turns)
    requires forall t, m | t in turns && m in t.replies :: m.role != "user"
    ensures Ledger.CallsOf(Ledger.Active(messages)) == []
    ensures TotalIssued(turns) <= Ledger.MaxRounds(cfg.maxRounds) - 1 + PerTurn(cfg)
  {
    var k := |messages| - 1;
    assert Ledger.LastUser(messages) == k;
    assert Ledger.Active(messages) == [messages[k]] && [messages[k]][1..] == [];
    CallsPerUserTurn(env, cfg, messages, turns);
  }

  // ---------------------------------------------------------------------------------------------
  // No call is completed twice
  // ---------------------------------------------------------------------------------------------

  /** Every result so far was more than white space, also those of earlier user turns. */
  ghost predicate AllAnswered(env: Ledger.Env, messages: seq<Message>) {
    Ledger.Open(Ledger.EvidenceOf(env, messages)) == []
  }

  /** The batch is what the streaming router makes of some candidates. */
  ghost predicate Routed(env: Ledger.Env, cfg: Config, messages: seq<Message>, t: Turn) {
    exists candidates :: t.issued == Issue(cfg, candidates, Ledger.Done(Ledger.EvidenceOf(env, messages)))
  }

  ghost predicate RouterRun(env: Ledger.Env, cfg: Config, messages: seq<Message>, turns: seq<Turn>)
    decreases |turns|
  {
    turns == [] ||
    (&& AllAnswered(env, messages)
     && Routed(env, cfg, messages, turns[0])
     && RouterRun(env, cfg, Next(messages, turns[0]), turns[1..]))
  }

  lemma {:induction false} AllDone(es: seq<Ledger.Evidence>)
    requires Ledger.Open(es) == []
    ensures Ledger.Done(es) == es
  {
    if es != [] {
      AllDone(es[1..]);
      assert es == [es[0]] + es[1..];
    }
  }

  /** With every call so far answered, what the router issues differs from all of them. */
  lemma IssuedAreNew(env: Ledger.Env, cfg: Config, messages: seq<Message>, t: Turn)
    requires AllAnswered(env, messages) && Routed(env, cfg, messages, t)
    ensures forall b, c | b in Ledger.CallsOf(messages) && c in t.issued ::
              Key(cfg.codec, b.name, b.arguments) != Key(cfg.codec, c.name, c.arguments)
  {
    var es := Ledger.EvidenceOf(env, messages);
    Ledger.EvidenceInCallOrder(env, messages);
    AllDone(es);
    var candidates :| t.issued == Issue(cfg, candidates, es);
    IssueLimits(cfg, candidates, es);
    forall b, c | b in Ledger.CallsOf(messages) && c in t.issued
      ensures Key(cfg.codec, b.name, b.arguments) != Key(cfg.codec, c.name, c.arguments)
    {
      var i :| 0 <= i < |es| && Ledger.CallsOf(messages)[i] == b;
      assert !HasCompleted(cfg.codec, es, c);
      assert Key(cfg.codec, es[i].name, es[i].arguments) == Key(cfg.codec, b.name, b.arguments);
    }
  }

  lemma KeysAppend(codec: Codec, a: seq<ToolCall>, b: seq<ToolCall>)
    ensures CallKeys(codec, a + b) == CallKeys(codec, a) + CallKeys(codec, b)
    ensures Distinct(CallKeys(codec, a + b)) ==> Distinct(CallKeys(codec, a)) && Distinct(CallKeys(codec, b))
    ensures (forall x, y | x in a && y in b :: Key(codec, x.name, x.arguments) != Key(codec, y.name, y.arguments)) ==>
              (Distinct(CallKeys(codec, a + b)) <==> Distinct(CallKeys(codec, a)) && Distinct(CallKeys(codec, b)))
  {
    var ka, kb := CallKeys(codec, a), CallKeys(codec, b);
    assert CallKeys(codec, a + b) == ka + kb;
    DistinctAppend(ka, kb);
    if forall x, y | x in a && y in b :: Key(codec, x.name, x.arguments) != Key(codec, y.name, y.arguments) {
      forall i, j | 0 <= i < |a| && 0 <= j < |b| ensures ka[i] != kb[j] {
        assert a[i] in a && b[j] in b;
      }
    }
  }

  /** The calls of the final conversation: those there were and those of the turns, in order. */
  lemma {:induction false} FinalCalls(env: Ledger.Env, cfg: Config, messages: seq<Message>, turns: seq<Turn>)
    requires Run(env, cfg, messages, turns)
    ensures exists more :: Ledger.CallsOf(Final(messages, turns)) == Ledger.CallsOf(messages) + more
    decreases |turns|
  {
    if turns == [] {
      assert Ledger.CallsOf(messages) == Ledger.CallsOf(messages) + [];
    } else {
      NextCalls(messages, turns[0]);
      FinalCalls(env, cfg, Next(messages, turns[0]), turns[1..]);
      var more :| Ledger.CallsOf(Final(messages, turns)) == Ledger.CallsOf(Next(messages, turns[0])) + more;
      Assoc(Ledger.CallsOf(messages), turns[0].issued, more);
    }
  }

  /** No batch asks twice for the same name and canonical arguments. */
  ghost predicate BatchesDistinct(codec: Codec, turns: seq<Turn>) {
    forall t | t in turns :: Distinct(CallKeys(codec, t.issued))
  }

  /** Over any run of router turns whose results are not blank, no name comes twice with the same
      canonical arguments if and only if none does within one batch: the filter rules out all repeats
      across turns, and none within a turn. */
  lemma {:induction false} NoCallRepeated(env: Ledger.Env, cfg: Config, messages: seq<Message>, turns: seq<Turn>)
    requires Run(env, cfg, messages, turns) && RouterRun(env, cfg, messages, turns)
    requires Distinct(CallKeys(cfg.codec, Ledger.CallsOf(messages)))
    ensures Distinct(CallKeys(cfg.codec, Ledger.CallsOf(Final(messages, turns)))) <==> BatchesDistinct(cfg.codec, turns)
    decreases |turns|
  {
    if turns != [] {
      TurnKeepsDistinct(env, cfg, messages, turns[0]);
      BatchesFront(cfg.codec, turns);
      if Distinct(CallKeys(cfg.codec, turns[0].issued)) {
        NoCallRepeated(env, cfg, Next(messages, turns[0]), turns[1..]);
      } else {
        RepeatStays(env, cfg, Next(messages, turns[0]), turns[1..]);
      }
    }
  }

  /** The same by meaning: over such a run no call comes twice, that is with the same name and the same
      JSON value or text, if and only if none does within one batch. */
  lemma NoSameCallTwice(env: Ledger.Env, cfg: Config, messages: seq<Message>, turns: seq<Turn>)
    requires ReadsBack(cfg.codec)
    requires Run(env, cfg, messages, turns) && RouterRun(env, cfg, messages, turns)
    requires NoneSame(cfg.codec, Ledger.CallsOf(messages))
    ensures NoneSame(cfg.codec, Ledger.CallsOf(Final(messages, turns))) <==>
              forall t | t in turns :: NoneSame(cfg.codec, t.issued)
  {
    KeysByMeaning(cfg.codec, Ledger.CallsOf(messages));
    KeysByMeaning(cfg.codec, Ledger.CallsOf(Final(messages, turns)));
    NoCallRepeated(env, cfg, messages, turns);
    forall t | t in turns ensures Distinct(CallKeys(cfg.codec, t.issued)) <==> NoneSame(cfg.codec, t.issued) {
      KeysByMeaning(cfg.codec, t.issued);
    }
  }

  lemma TurnKeepsDistinct(env: Ledger.Env, cfg: Config, messages: seq<Message>, t: Turn)
    requires AllAnswered(env, messages) && Routed(env, cfg, messages, t)
    requires forall m | m in t.replies :: m.role != "assistant"
    requires Distinct(CallKeys(cfg.codec, Ledger.CallsOf(messages)))
    ensures Distinct(CallKeys(cfg.codec, Ledger.CallsOf(Next(messages, t)))) <==>
              Distinct(CallKeys(cfg.codec, t.issued))
  {
    NextCalls(messages, t);
    IssuedAreNew(env, cfg, messages, t);
    KeysAppend(cfg.codec, Ledger.CallsOf(messages), t.issued);
  }

  lemma BatchesFront(codec: Codec, turns: seq<Turn>)
    requires turns != []
    ensures BatchesDistinct(codec, turns) <==>
              Distinct(CallKeys(codec, turns[0].issued)) && BatchesDistinct(codec, turns[1..])
  {
    assert turns == [turns[0]] + turns[1..];
    assert turns[0] in turns;
  }

  /** A repeat is never undone. */
  lemma RepeatStays(env: Ledger.Env, cfg: Config, messages: seq<Message>, turns: seq<Turn>)
    requires Run(env, cfg, messages, turns)
    requires !Distinct(CallKeys(cfg.codec, Ledger.CallsOf(messages)))
    ensures !Distinct(CallKeys(cfg.codec, Ledger.CallsOf(Final(messages, turns))))
  {
    FinalCalls(env, cfg, messages, turns);
    var more :| Ledger.CallsOf(Final(messages, turns)) == Ledger.CallsOf(messages) + more;
    KeysAppend(cfg.codec, Ledger.CallsOf(messages), more);
  }

  /** With one call per turn, which the setting can ask for, there is nothing to repeat within one. */
  lemma OneCallPerTurn(env: Ledger.Env, cfg: Config, messages: seq<Message>, turns: seq<Turn>)
    requires Run(env, cfg, messages, turns) && RouterRun(env, cfg, messages, turns)
    requires Distinct(CallKeys(cfg.codec, Ledger.CallsOf(messages))) && cfg.configured <= 1
    ensures Distinct(CallKeys(cfg.codec, Ledger.CallsOf(Final(messages, turns))))
  {
    BatchesLimited(env, cfg, messages, turns);
    NoCallRepeated(env, cfg, messages, turns);
  }

  lemma {:induction false} BatchesLimited(env: Ledger.Env, cfg: Config, messages: seq<Message>, turns: seq<Turn>)
    requires Run(env, cfg, messages, turns)
    ensures forall t | t in turns :: |t.issued| <= PerTurn(cfg)
    decreases |turns|
  {
    if turns != [] {
      BatchesLimited(env, cfg, Next(messages, turns[0]), turns[1..]);
      assert turns == [turns[0]] + turns[1..];
    }
  }

  /** Two candidates with the same name and arguments: the router issues both when the tool looks
      read-only and two calls per turn are configured. */
  lemma EqualCallsIssued(cfg: Config, c: ToolCall, d: ToolCall)
    requires c.name == d.name && c.arguments == d.arguments
    requires cfg.configured >= 2 && Parallelisable(cfg, c)
    ensures Issue(cfg, [c, d], []) == [c, d]
    ensures !Distinct(CallKeys(cfg.codec, [c, d]))
  {
    assert [c, d][..1] == [c] && [c][..0] == [];
    assert !HasCompleted(cfg.codec, [], c) && !HasCompleted(cfg.codec, [], d);
    assert Unfinished(cfg.codec, [c], []) == [c];
    assert Unfinished(cfg.codec, [c, d], []) == [c, d];
    var keys := CallKeys(cfg.codec, [c, d]);
    assert keys[0] == keys[1];
  }

  /** A run on which it happens: the first turn after a question issues the same call twice. */
  lemma EqualCallsRun(env: Ledger.Env, cfg: Config, c: ToolCall, d: ToolCall)
    requires c.name == d.name && c.arguments == d.arguments
    requires cfg.configured >= 2 && Parallelisable(cfg, c)
    ensures var messages, turns := [Message("user", Str("?"), "", [])], [Turn([c, d], [])];
            && Run(env, cfg, messages, turns) && RouterRun(env, cfg, messages, turns)
            && !BatchesDistinct(cfg.codec, turns)
  {
    var messages, t := [Message("user", Str("?"), "", [])], Turn([c, d], []);
    EqualCallsIssued(cfg, c, d);
    FirstQuestion(env, cfg, messages[0]);
    assert Routed(env, cfg, messages, t) by {
      assert t.issued == Issue(cfg, [c, d], Ledger.Done(Ledger.EvidenceOf(env, messages)));
    }
    assert [t][1..] == [];
    assert t in [t];
  }

  lemma FirstQuestion(env: Ledger.Env, cfg: Config, m: Message)
    requires m.role == "user"
    ensures Valid([m]) && Ledger.MayGoOn(env, [m], cfg.maxRounds)
    ensures Ledger.EvidenceOf(env, [m]) == [] && AllAnswered(env, [m])
  {
    assert [m][1..] == [] && Ledger.EvidenceOf(env, []) == [];
    assert ShapeOf([m]) == Shape([], []);
    ValidIffWellFormed([m]);
    assert Ledger.Active([m]) == [m] && Ledger.CallsOf([m]) == [];
    assert forall x | x in Ledger.Active([m]) :: x == m;
  }

  /** No two pieces of evidence are for the same name and canonical arguments. */
  predicate NoneAlike(codec: Codec, es: seq<Ledger.Evidence>) {
    forall i, j | 0 <= i < j < |es| ::
      Key(codec, es[i].name, es[i].arguments) != Key(codec, es[j].name, es[j].arguments)
  }

  lemma {:induction false} DoneNoneAlike(codec: Codec, es: seq<Ledger.Evidence>)
    requires NoneAlike(codec, es)
    ensures NoneAlike(codec, Ledger.Done(es))
  {
    if es != [] {
      DoneNoneAlike(codec, es[1..]);
      Ledger.PartitionMembers(es[1..]);
      var rest := Ledger.Done(es[1..]);
      forall j | 0 <= j < |rest|
        ensures Key(codec, es[0].name, es[0].arguments) != Key(codec, rest[j].name, rest[j].arguments)
      {
        assert rest[j] in rest;
        var k :| 0 <= k < |es[1..]| && es[1..][k] == rest[j];
        assert es[k + 1] == rest[j];
      }
    }
  }

  lemma EvidenceAlike(env: Ledger.Env, codec: Codec, messages: seq<Message>)
    ensures NoneAlike(codec, Ledger.EvidenceOf(env, messages)) <==>
              Distinct(CallKeys(codec, Ledger.CallsOf(messages)))
  {
    var es, keys := Ledger.EvidenceOf(env, messages), CallKeys(codec, Ledger.CallsOf(messages));
    Ledger.EvidenceInCallOrder(env, messages);
    assert forall i | 0 <= i < |es| :: keys[i] == Key(codec, es[i].name, es[i].arguments);
  }

  /** The completed list of the ledger at the end of such a run has no two entries for one call if no
      batch has, and, once every call is answered, only if. */
  lemma CompletedOnce(env: Ledger.Env, cfg: Config, messages: seq<Message>, turns: seq<Turn>)
    requires Run(env, cfg, messages, turns) && RouterRun(env, cfg, messages, turns)
    requires Ledger.CallsOf(messages) == []
    ensures var final := Final(messages, turns);
            var completed := Ledger.Done(Ledger.EvidenceOf(env, final));
            && (BatchesDistinct(cfg.codec, turns) ==> NoneAlike(cfg.codec, completed))
            && (AllAnswered(env, final) && NoneAlike(cfg.codec, completed) ==> BatchesDistinct(cfg.codec, turns))
  {
    NoCallRepeated(env, cfg, messages, turns);
    var final := Final(messages, turns);
    var es := Ledger.EvidenceOf(env, final);
    EvidenceAlike(env, cfg.codec, final);
    if NoneAlike(cfg.codec, es) {
      DoneNoneAlike(cfg.codec, es);
    }
    if AllAnswered(env, final) {
      AllDone(es);
    }
  }
}
