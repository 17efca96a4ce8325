/** The outbound proxy pool: round robin over the entries that are not cooling down. */
module ProxyPool {
  import opened Text

  const SECOND: int := 1_000_000_000

  datatype Entry = Entry(raw: string, failures: nat, cooldown: int)

  /** `next` may lie beyond the end after a removal; it is only used modulo the length. */
  datatype State = State(entries: seq<Entry>, next: nat)

  predicate Cooling(e: Entry, now: int) {
    now < e.cooldown
  }

  function Slot(st: State, i: nat): (k: nat)
    requires st.entries != []
    ensures k < |st.entries|
  {
    (st.next + i) % |st.entries|
  }

  /** The first offset from `from` on whose entry is not cooling. */
  function FirstReady(st: State, now: int, from: nat): Option<nat>
    requires st.entries != [] && from <= |st.entries|
    decreases |st.entries| - from
  {
    if from == |st.entries| then None
    else if !Cooling(st.entries[Slot(st, from)], now) then Some(from)
    else FirstReady(st, now, from + 1)
  }

  /** The position that is handed out; when all entries cool, the next one in turn. */
  function Choice(st: State, now: int): (k: nat)
    requires st.entries != []
    ensures k < |st.entries|
  {
    match FirstReady(st, now, 0)
    case Some(i) => Slot(st, i)
    case None => st.next % |st.entries|
  }

  function AfterPick(st: State, now: int): State
    requires st.entries != []
  {
    match FirstReady(st, now, 0)
    case Some(i) => st.(next := Slot(st, i + 1))
    case None => st.(next := Slot(st, 1))
  }

  /** Two seconds for each consecutive failure, two minutes at most. */
  function Backoff(failures: nat): int {
    if failures * 2 * SECOND > 120 * SECOND then 120 * SECOND else failures * 2 * SECOND
  }

  function Marked(e: Entry, failed: bool, now: int): Entry {
    if failed then Entry(e.raw, e.failures + 1, now + Backoff(e.failures + 1)) else Entry(e.raw, 0, 0)
  }

  function MarkIn(entries: seq<Entry>, raw: string, failed: bool, now: int): seq<Entry> {
    if entries == [] then []
    else if entries[0].raw == raw then [Marked(entries[0], failed, now)] + entries[1..]
    else [entries[0]] + MarkIn(entries[1..], raw, failed, now)
  }

  function RemoveFrom(entries: seq<Entry>, raw: string): seq<Entry> {
    if entries == [] then []
    else if entries[0].raw == raw then entries[1..]
    else [entries[0]] + RemoveFrom(entries[1..], raw)
  }

  datatype Op = Pick(now: int) | Mark(raw: string, failed: bool, now: int) | Remove(raw: string)

  function Step(st: State, op: Op): State {
    match op
    case Pick(now) => if st.entries == [] then st else AfterPick(st, now)
    case Mark(raw, failed, now) => st.(entries := MarkIn(st.entries, raw, failed, now))
    case Remove(raw) => st.(entries := RemoveFrom(st.entries, raw))
  }

  function Run(st: State, ops: seq<Op>): State {
    if ops == [] then st else Step(Run(st, ops[..|ops| - 1]), ops[|ops| - 1])
  }

  /** What the picks of a run hand out, in order. */
  function Picks(st: State, ops: seq<Op>): seq<string>
    decreases |ops|
  {
    if ops == [] then []
    else (if ops[0].Pick? && st.entries != [] then [st.entries[Choice(st, ops[0].now)].raw] else []) +
         Picks(Step(st, ops[0]), ops[1..])
  }

  function Raws(entries: seq<Entry>): (r: seq<string>)
    ensures |r| == |entries|
    ensures forall k :: 0 <= k < |entries| ==> r[k] == entries[k].raw
  {
    seq(|entries|, k requires 0 <= k < |entries| => entries[k].raw)
  }

  /** No two entries are the same proxy. */
  ghost predicate AllDifferent(st: State) {
    forall i, j | 0 <= i < j < |st.entries| :: st.entries[i].raw != st.entries[j].raw
  }

  // ---------------------------------------------------------------------------------------------
  // Arithmetic of the round
  // ---------------------------------------------------------------------------------------------

  lemma MulAtLeast(d: int, n: int)
    requires d >= 1 && n >= 0
    ensures d * n >= n
  {
    assert d * n == n + (d - 1) * n;
  }

  lemma ModUnique(a: int, n: int, q: int, r: int)
    requires 0 < n && 0 <= r < n && a == q * n + r
    ensures a % n == r
  {
    var d := a / n - q;
    assert d * n == r - a % n by {
      assert a == n * (a / n) + a % n;
      assert d * n == (a / n) * n - q * n;
    }
    assert (-d) * n == -(d * n);
    if d >= 1 {
      MulAtLeast(d, n);
    } else if d <= -1 {
      MulAtLeast(-d, n);
    }
  }

  function Wrap(k: int, n: int): int {
    if k < n then k else k - n
  }

  lemma SlotWraps(st: State, i: nat)
    requires st.entries != [] && i <= |st.entries|
    ensures Slot(st, i) == Wrap(st.next % |st.entries| + i, |st.entries|)
  {
    var n := |st.entries|;
    var q, p := st.next / n, st.next % n;
    assert st.next + i == q * n + (p + i);
    if p + i < n {
      ModUnique(st.next + i, n, q, p + i);
    } else {
      assert st.next + i == (q + 1) * n + (p + i - n);
      ModUnique(st.next + i, n, q + 1, p + i - n);
    }
  }

  /** How many entries come before position `k` in the current round. */
  function Distance(st: State, k: nat): int
    requires k < |st.entries|
  {
    var p := st.next % |st.entries|;
    if k >= p then k - p else k - p + |st.entries|
  }

  lemma DistanceSlot(st: State, k: nat)
    requires k < |st.entries|
    ensures 0 <= Distance(st, k) < |st.entries| && Slot(st, Distance(st, k)) == k
  {
    SlotWraps(st, Distance(st, k));
  }

  lemma {:induction false} FirstReadyFound(st: State, now: int, from: nat, d: nat)
    requires from <= d < |st.entries| && !Cooling(st.entries[Slot(st, d)], now)
    ensures FirstReady(st, now, from).Some? && from <= FirstReady(st, now, from).value <= d
    ensures !Cooling(st.entries[Slot(st, FirstReady(st, now, from).value)], now)
    decreases d - from
  {
    if from < d && Cooling(st.entries[Slot(st, from)], now) {
      FirstReadyFound(st, now, from + 1, d);
    }
  }

  // ---------------------------------------------------------------------------------------------
  // Fairness
  // ---------------------------------------------------------------------------------------------

  /** A pick hands out a ready entry or brings its turn nearer. */
  lemma PickProgress(st: State, now: int, k: nat)
    requires k < |st.entries| && !Cooling(st.entries[k], now)
    ensures Choice(st, now) == k || Distance(AfterPick(st, now), k) < Distance(st, k)
  {
    var d := Distance(st, k);
    DistanceSlot(st, k);
    FirstReadyFound(st, now, 0, d);
    var i := FirstReady(st, now, 0).value;
    SlotWraps(st, i + 1);
    var p' := Slot(st, i + 1);
    ModUnique(p', |st.entries|, 0, p');
  }

  lemma {:induction false} MarkKeepsOthers(entries: seq<Entry>, raw: string, failed: bool, now: int)
    ensures |MarkIn(entries, raw, failed, now)| == |entries|
    ensures forall k | 0 <= k < |entries| ::
              && MarkIn(entries, raw, failed, now)[k].raw == entries[k].raw
              && (entries[k].raw != raw ==> MarkIn(entries, raw, failed, now)[k] == entries[k])
  {
    if entries != [] && entries[0].raw != raw {
      MarkKeepsOthers(entries[1..], raw, failed, now);
    }
  }

  function PickCount(ops: seq<Op>): nat {
    if ops == [] then 0 else (if ops[0].Pick? then 1 else 0) + PickCount(ops[1..])
  }

  function Find(entries: seq<Entry>, raw: string): Option<Entry> {
    if entries == [] then None
    else if entries[0].raw == raw then Some(entries[0])
    else Find(entries[1..], raw)
  }

  lemma {:induction false} FindAfter(entries: seq<Entry>, raw: string, other: string, failed: bool, now: int)
    ensures Find(MarkIn(entries, other, failed, now), raw) ==
              if Find(entries, raw).Some? && other == raw
              then Some(Marked(Find(entries, raw).value, failed, now)) else Find(entries, raw)
    ensures other != raw ==> Find(RemoveFrom(entries, other), raw) == Find(entries, raw)
  {
    if entries != [] {
      FindAfter(entries[1..], raw, other, failed, now);
    }
  }

  function RemoveCount(ops: seq<Op>): nat {
    if ops == [] then 0 else (if ops[0].Remove? then 1 else 0) + RemoveCount(ops[1..])
  }

  /** The entry itself is not removed and is not cooling whenever something is picked. */
  ghost predicate StaysReady(st: State, ops: seq<Op>, raw: string)
    decreases |ops|
  {
    ops == [] ||
    (&& Find(st.entries, raw).Some?
     && ops[0] != Remove(raw)
     && (ops[0].Pick? ==> !Cooling(Find(st.entries, raw).value, ops[0].now))
     && StaysReady(Step(st, ops[0]), ops[1..], raw))
  }

  /** The position of an entry that is there. */
  function Place(entries: seq<Entry>, raw: string): (k: nat)
    requires Find(entries, raw).Some?
    ensures k < |entries| && entries[k] == Find(entries, raw).value && entries[k].raw == raw
  {
    if entries[0].raw == raw then 0 else 1 + Place(entries[1..], raw)
  }

  lemma {:induction false} PlaceAfterMark(entries: seq<Entry>, raw: string, other: string, failed: bool, now: int)
    requires Find(entries, raw).Some?
    ensures |MarkIn(entries, other, failed, now)| == |entries|
    ensures Find(MarkIn(entries, other, failed, now), raw).Some?
    ensures Place(MarkIn(entries, other, failed, now), raw) == Place(entries, raw)
  {
    FindAfter(entries, raw, other, failed, now);
    MarkKeepsOthers(entries, other, failed, now);
    if entries[0].raw != raw && entries[0].raw != other {
      PlaceAfterMark(entries[1..], raw, other, failed, now);
      assert MarkIn(entries, other, failed, now)[1..] == MarkIn(entries[1..], other, failed, now);
    }
  }

  lemma {:induction false} RemoveLength(entries: seq<Entry>, raw: string)
    ensures RemoveFrom(entries, raw) == entries || |RemoveFrom(entries, raw)| == |entries| - 1
  {
    if entries != [] {
      RemoveLength(entries[1..], raw);
    }
  }

  /** A removal costs at most one round of the remaining entries. */
  lemma OneRemovalLess(removals: nat, n: nat)
    requires removals >= 1 && n >= 2
    ensures (n - 2) + (removals - 1) * (n - 2) <= removals * (n - 1)
    ensures (removals - 1) * (n - 1) <= removals * (n - 1)
  {
    assert removals * (n - 1) == (removals - 1) * (n - 1) + (n - 1);
    assert (removals - 1) * (n - 1) == (removals - 1) * (n - 2) + (removals - 1);
  }

  lemma AfterRemoval(st: State, raw: string, other: string, removals: nat)
    requires Find(st.entries, raw).Some? && other != raw && removals >= 1
    ensures var st' := Step(st, Remove(other));
            && Find(st'.entries, raw).Some?
            && Distance(st', Place(st'.entries, raw)) + (removals - 1) * (|st'.entries| - 1)
                 <= Distance(st, Place(st.entries, raw)) + removals * (|st.entries| - 1)
  {
    var st' := Step(st, Remove(other));
    FindAfter(st.entries, raw, other, false, 0);
    RemoveLength(st.entries, other);
    DistanceSlot(st, Place(st.entries, raw));
    DistanceSlot(st', Place(st'.entries, raw));
    if |st.entries| >= 2 {
      OneRemovalLess(removals, |st.entries|);
    }
  }

  lemma {:induction false} HandedOutBefore(st: State, ops: seq<Op>, raw: string)
    requires Find(st.entries, raw).Some? && StaysReady(st, ops, raw)
    requires PickCount(ops) > Distance(st, Place(st.entries, raw)) + RemoveCount(ops) * (|st.entries| - 1)
    ensures raw in Picks(st, ops)
    decreases |ops|
  {
    var k := Place(st.entries, raw);
    DistanceSlot(st, k);
    if ops != [] {
      var op, st' := ops[0], Step(st, ops[0]);
      match op {
        case Pick(now) =>
          PickProgress(st, now, k);
          if Choice(st, now) != k {
            HandedOutBefore(st', ops[1..], raw);
          }
        case Mark(other, failed, now) =>
          PlaceAfterMark(st.entries, raw, other, failed, now);
          HandedOutBefore(st', ops[1..], raw);
        case Remove(other) =>
          AfterRemoval(st, raw, other, RemoveCount(ops));
          HandedOutBefore(st', ops[1..], raw);
      }
    }
  }

  /** An entry that stays out of cooldown is handed out within one round of picks, and within one more
      for each removal of another entry that comes in between. */
  lemma ReadyEntryIsServed(st: State, ops: seq<Op>, raw: string)
    requires Find(st.entries, raw).Some? && StaysReady(st, ops, raw)
    requires PickCount(ops) >= |st.entries| + RemoveCount(ops) * (|st.entries| - 1)
    ensures raw in Picks(st, ops)
  {
    DistanceSlot(st, Place(st.entries, raw));
    HandedOutBefore(st, ops, raw);
  }

  /** Without the extra rounds it is not: three ready entries, three picks, one removal, and the last
      entry has not had its turn. */
  lemma RemovalDelays(a: string, b: string, c: string)
    requires a != b && b != c && a != c
    ensures var st := State([Entry(a, 0, 0), Entry(b, 0, 0), Entry(c, 0, 0)], 0);
            var ops := [Pick(0), Pick(0), Remove(a), Pick(0)];
            && StaysReady(st, ops, c) && PickCount(ops) == |st.entries|
            && Picks(st, ops) == [a, b, b]
  {
    var x, y, z := Entry(a, 0, 0), Entry(b, 0, 0), Entry(c, 0, 0);
    var all := [x, y, z];
    var st0, st1, st2, st3 := State(all, 0), State(all, 1), State(all, 2), State([y, z], 2);
    PickWhenReady(st0, 0);
    PickWhenReady(st1, 0);
    PickWhenReady(st3, 0);
    assert Step(st0, Pick(0)) == st1 && Step(st1, Pick(0)) == st2;
    assert all[1..] == [y, z] && Step(st2, Remove(a)) == st3;
    assert [y, z][1..] == [z] && Find([z], c) == Some(z);
    assert Find([y, z], c) == Some(z) && Find(all, c) == Find([y, z], c);
    var ops := [Pick(0), Pick(0), Remove(a), Pick(0)];
    assert ops[1..] == [Pick(0), Remove(a), Pick(0)] && ops[1..][1..] == [Remove(a), Pick(0)];
    assert [Remove(a), Pick(0)][1..] == [Pick(0)] && [Pick(0)][1..] == [];
    assert PickCount([Pick(0)]) == 1 && PickCount([Remove(a), Pick(0)]) == 1 && PickCount(ops[1..]) == 2;
    assert Picks(st3, [Pick(0)]) == [b];
    assert Picks(st2, [Remove(a), Pick(0)]) == [b];
    assert Picks(st1, ops[1..]) == [b, b];
    assert StaysReady(st3, [Pick(0)], c) && StaysReady(st2, [Remove(a), Pick(0)], c);
  }

  function PicksAt(times: seq<int>): (ops: seq<Op>)
    ensures |ops| == |times|
    ensures forall k :: 0 <= k < |times| ==> ops[k] == Pick(times[k])
  {
    seq(|times|, k requires 0 <= k < |times| => Pick(times[k]))
  }

  /** `raws` from position `p` on, and from the start again. */
  function Round(raws: seq<string>, p: nat, n: nat): seq<string>
    requires p < |raws| && n <= |raws|
  {
    (raws + raws)[p..p + n]
  }

  lemma RoundFront(raws: seq<string>, p: nat, m: nat)
    requires p < |raws| && m < |raws|
    ensures Round(raws, p, m + 1) == [raws[p]] + Round(raws, Wrap(p + 1, |raws|), m)
  {
    var twice := raws + raws;
    assert twice[p..p + m + 1] == [raws[p]] + twice[p + 1..p + 1 + m];
    if p + 1 == |raws| {
      assert twice[|raws|..|raws| + m] == twice[0..m];
    }
  }

  /** Either every entry is ready or every entry cools. */
  ghost predicate AllAlike(entries: seq<Entry>, now: int) {
    (forall e | e in entries :: !Cooling(e, now)) || (forall e | e in entries :: Cooling(e, now))
  }

  lemma {:induction false} NoneReady(st: State, now: int, from: nat)
    requires st.entries != [] && from <= |st.entries| && forall e | e in st.entries :: Cooling(e, now)
    ensures FirstReady(st, now, from) == None
    decreases |st.entries| - from
  {
    if from < |st.entries| {
      assert st.entries[Slot(st, from)] in st.entries;
      NoneReady(st, now, from + 1);
    }
  }

  lemma PickWhenReady(st: State, now: int)
    requires st.entries != [] && AllAlike(st.entries, now)
    ensures Choice(st, now) == st.next % |st.entries|
    ensures AfterPick(st, now).entries == st.entries
    ensures AfterPick(st, now).next % |st.entries| == Wrap(st.next % |st.entries| + 1, |st.entries|)
  {
    var n := |st.entries|;
    assert st.entries[Slot(st, 0)] in st.entries;
    if Cooling(st.entries[Slot(st, 0)], now) {
      NoneReady(st, now, 0);
    } else {
      assert FirstReady(st, now, 0) == Some(0);
    }
    SlotWraps(st, 1);
    ModUnique(Slot(st, 1), n, 0, Slot(st, 1));
  }

  lemma PicksFront(st: State, times: seq<int>)
    requires st.entries != [] && times != []
    ensures Picks(st, PicksAt(times)) ==
              [st.entries[Choice(st, times[0])].raw] + Picks(AfterPick(st, times[0]), PicksAt(times[1..]))
  {
    var ops := PicksAt(times);
    assert ops[0] == Pick(times[0]) && ops[1..] == PicksAt(times[1..]);
  }

  lemma {:induction false} PicksInOrder(st: State, times: seq<int>)
    requires st.entries != [] && |times| <= |st.entries|
    requires forall t | t in times :: AllAlike(st.entries, t)
    ensures Picks(st, PicksAt(times)) == Round(Raws(st.entries), st.next % |st.entries|, |times|)
    decreases |times|
  {
    var p, raws := st.next % |st.entries|, Raws(st.entries);
    if times == [] {
      assert Round(raws, p, 0) == [];
    } else {
      assert times[0] in times && forall t | t in times[1..] :: t in times;
      PicksFront(st, times);
      PickWhenReady(st, times[0]);
      PicksInOrder(AfterPick(st, times[0]), times[1..]);
      RoundFront(raws, p, |times| - 1);
    }
  }

  /** With nothing cooling, and also with everything cooling, one round of picks hands out every entry
      exactly once, in order. */
  lemma RoundServesEachOnce(st: State, times: seq<int>)
    requires st.entries != [] && |times| == |st.entries|
    requires forall t | t in times :: AllAlike(st.entries, t)
    ensures var p := st.next % |st.entries|;
            Picks(st, PicksAt(times)) == Raws(st.entries)[p..] + Raws(st.entries)[..p]
    ensures multiset(Picks(st, PicksAt(times))) == multiset(Raws(st.entries))
  {
    PicksInOrder(st, times);
    RoundIsPermutation(Raws(st.entries), st.next % |st.entries|);
  }

  lemma RoundIsPermutation(raws: seq<string>, p: nat)
    requires p < |raws|
    ensures Round(raws, p, |raws|) == raws[p..] + raws[..p]
    ensures multiset(raws[p..] + raws[..p]) == multiset(raws)
  {
    assert raws == raws[..p] + raws[p..];
    assert (raws + raws)[p..p + |raws|] == raws[p..] + raws[..p];
  }

  // ---------------------------------------------------------------------------------------------
  // Cooldown
  // ---------------------------------------------------------------------------------------------

  /** While some entry is ready, no cooling entry is handed out. */
  lemma CoolingIsSkipped(st: State, now: int, k: nat)
    requires k < |st.entries| && !Cooling(st.entries[k], now)
    ensures !Cooling(st.entries[Choice(st, now)], now)
  {
    DistanceSlot(st, k);
    FirstReadyFound(st, now, 0, Distance(st, k));
  }

  /** A cooling entry is handed out if and only if every entry is cooling. */
  lemma CoolingOnlyWhenAll(st: State, now: int)
    requires st.entries != []
    ensures Cooling(st.entries[Choice(st, now)], now) <==> forall e | e in st.entries :: Cooling(e, now)
  {
    if k :| 0 <= k < |st.entries| && !Cooling(st.entries[k], now) {
      assert st.entries[k] in st.entries;
      CoolingIsSkipped(st, now, k);
    }
  }

  /** The times at which `raw` was reported to fail. */
  function FailureTimes(ops: seq<Op>, raw: string): seq<int> {
    if ops == [] then []
    else
      var last := ops[|ops| - 1];
      FailureTimes(ops[..|ops| - 1], raw) +
      if last.Mark? && last.raw == raw && last.failed then [last.now] else []
  }

  ghost predicate OnlyFails(ops: seq<Op>, raw: string) {
    forall op | op in ops && !op.Pick? && op.raw == raw :: op.Mark? && op.failed
  }

  /** A success forgets all failures: the entry has none and cools at no time from the start of the
      clock on. A failure adds one, and a report about another proxy changes nothing. */
  lemma MarkedExactly(st: State, raw: string, other: string, failed: bool, now: int)
    requires Find(st.entries, raw).Some?
    ensures var before, after := Find(st.entries, raw).value, Find(Step(st, Mark(other, failed, now)).entries, raw);
            && after.Some?
            && (other != raw ==> after.value == before)
            && (other == raw && failed ==>
                  var n := before.failures + 1;
                  && after.value.failures == n
                  && after.value.cooldown == now + (if 2 * n <= 120 then 2 * n else 120) * 1_000_000_000)
            && (other == raw && !failed ==>
                  after.value.failures == 0 && forall t | t >= 0 :: !Cooling(after.value, t))
  {
    FindAfter(st.entries, raw, other, failed, now);
  }

  /** After k failures in a row the entry cools until min(2k, 120) seconds after the last one. */
  lemma {:induction false} FailuresInARow(st: State, ops: seq<Op>, raw: string)
    requires Find(st.entries, raw).Some? && Find(st.entries, raw).value.failures == 0
    requires OnlyFails(ops, raw)
    ensures var times := FailureTimes(ops, raw);
            && Find(Run(st, ops).entries, raw).Some?
            && var e := Find(Run(st, ops).entries, raw).value;
               && e.failures == |times|
               && (times != [] ==>
                     var k := |times|;
                     e.cooldown == times[k - 1] + (if 2 * k <= 120 then 2 * k else 120) * 1_000_000_000)
  {
    if ops != [] {
      var n := |ops| - 1;
      assert ops == ops[..n] + [ops[n]];
      FailuresInARow(st, ops[..n], raw);
      var before := Run(st, ops[..n]);
      if !ops[n].Pick? {
        var failed, now := ops[n].Mark? && ops[n].failed, if ops[n].Mark? then ops[n].now else 0;
        FindAfter(before.entries, raw, ops[n].raw, failed, now);
      }
    }
  }

  lemma {:induction false} RemovedStayIn(entries: seq<Entry>, raw: string)
    ensures forall e | e in RemoveFrom(entries, raw) :: e in entries
  {
    if entries != [] {
      RemovedStayIn(entries[1..], raw);
      assert entries == [entries[0]] + entries[1..];
    }
  }

  lemma DistinctFront(e: Entry, rest: seq<Entry>)
    ensures AllDifferent(State([e] + rest, 0)) <==>
              AllDifferent(State(rest, 0)) && forall other | other in rest :: other.raw != e.raw
  {
    var all := [e] + rest;
    if AllDifferent(State(all, 0)) {
      forall i, j | 0 <= i < j < |rest| ensures rest[i].raw != rest[j].raw {
        assert all[i + 1] == rest[i] && all[j + 1] == rest[j];
      }
      forall other | other in rest ensures other.raw != e.raw {
        var j :| 0 <= j < |rest| && rest[j] == other;
        assert all[0] == e && all[j + 1] == other;
      }
    }
  }

  /** Removing takes the proxy out for good and keeps the others distinct. */
  lemma {:induction false} RemoveKeeps(entries: seq<Entry>, raw: string)
    requires AllDifferent(State(entries, 0))
    ensures AllDifferent(State(RemoveFrom(entries, raw), 0))
    ensures forall e | e in RemoveFrom(entries, raw) :: e.raw != raw
  {
    if entries != [] {
      assert entries == [entries[0]] + entries[1..];
      DistinctFront(entries[0], entries[1..]);
      RemoveKeeps(entries[1..], raw);
      RemovedStayIn(entries[1..], raw);
      DistinctFront(entries[0], RemoveFrom(entries[1..], raw));
    }
  }

  /** Every operation keeps the entries distinct. */
  lemma {:induction false} RunKeepsDistinct(st: State, ops: seq<Op>)
    requires AllDifferent(st)
    ensures AllDifferent(Run(st, ops))
  {
    if ops != [] {
      var n := |ops| - 1;
      RunKeepsDistinct(st, ops[..n]);
      var before := Run(st, ops[..n]);
      match ops[n] {
        case Pick(_) =>
        case Mark(raw, failed, now) => MarkKeepsOthers(before.entries, raw, failed, now);
        case Remove(raw) =>
          assert AllDifferent(State(before.entries, 0));
          RemoveKeeps(before.entries, raw);
      }
    }
  }

  lemma {:induction false} FindUnique(entries: seq<Entry>, k: nat)
    requires AllDifferent(State(entries, 0)) && k < |entries|
    ensures Find(entries, entries[k].raw) == Some(entries[k])
  {
    if k > 0 {
      var rest := entries[1..];
      assert forall i, j | 0 <= i < j < |rest| ::
               rest[i].raw == entries[i + 1].raw && rest[j].raw == entries[j + 1].raw;
      FindUnique(rest, k - 1);
    }
  }

  /** An entry with k failures in a row is not handed out within min(2k, 120) seconds of the last
      one while some entry is available, whatever else was picked, marked or removed. */
  lemma BackoffIsKept(st: State, ops: seq<Op>, raw: string, now: int, ready: nat)
    requires AllDifferent(st) && OnlyFails(ops, raw)
    requires Find(st.entries, raw).Some? && Find(st.entries, raw).value.failures == 0
    requires var times := FailureTimes(ops, raw);
             && times != []
             && now < times[|times| - 1] + (if 2 * |times| <= 120 then 2 * |times| else 120) * 1_000_000_000
    requires ready < |Run(st, ops).entries| && !Cooling(Run(st, ops).entries[ready], now)
    ensures Run(st, ops).entries[Choice(Run(st, ops), now)].raw != raw
  {
    var after := Run(st, ops);
    FailuresInARow(st, ops, raw);
    RunKeepsDistinct(st, ops);
    CoolingIsSkipped(after, now, ready);
    FindUnique(after.entries, Choice(after, now));
  }

  // ---------------------------------------------------------------------------------------------
  // The pool
  // ---------------------------------------------------------------------------------------------

  /** The proxies a new pool is made of: the first occurrence of each non-empty url. */
  function Listed(urls: seq<string>): seq<string> {
    if urls == [] then []
    else
      var k := |urls| - 1;
      Listed(urls[..k]) + if urls[k] == "" || urls[k] in Listed(urls[..k]) then [] else [urls[k]]
  }

  lemma {:induction false} ListedExactly(urls: seq<string>)
    ensures forall u :: u in Listed(urls) <==> u in urls && u != ""
    ensures forall i, j | 0 <= i < j < |Listed(urls)| :: Listed(urls)[i] != Listed(urls)[j]
  {
    if urls != [] {
      var k := |urls| - 1;
      assert urls == urls[..k] + [urls[k]];
      ListedExactly(urls[..k]);
    }
  }

  class PoolEntry {
    const raw: string
    var failures: nat
    var cooldown: int

    constructor (raw: string)
      ensures Value() == Entry(raw, 0, 0)
    {
      this.raw, failures, cooldown := raw, 0, 0;
    }

    ghost function Value(): Entry
      reads this
    {
      Entry(raw, failures, cooldown)
    }

    method Record(failed: bool, now: int)
      modifies this
      ensures Value() == Marked(old(Value()), failed, now)
      ensures failed ==>
                && failures == old(failures) + 1
                && cooldown == now + (if 2 * failures <= 120 then 2 * failures else 120) * 1_000_000_000
      ensures !failed ==> failures == 0 && cooldown == 0
    {
      if !failed {
        failures := 0;
        cooldown := 0;
      } else {
        failures := failures + 1;
        var d := failures * 2 * SECOND;
        if d > 120 * SECOND {
          d := 120 * SECOND;
        }
        cooldown := now + d;
      }
    }
  }

  ghost function Values(entries: seq<PoolEntry>): (r: seq<Entry>)
    reads entries
    ensures |r| == |entries|
    ensures forall k :: 0 <= k < |entries| ==> r[k] == entries[k].Value()
  {
    seq(|entries|, k requires 0 <= k < |entries| reads entries => entries[k].Value())
  }

  lemma {:induction false} MarkAt(entries: seq<Entry>, k: nat, failed: bool, now: int)
    requires k < |entries| && forall i | 0 <= i < k :: entries[i].raw != entries[k].raw
    ensures MarkIn(entries, entries[k].raw, failed, now) == entries[k := Marked(entries[k], failed, now)]
  {
    if k > 0 {
      MarkAt(entries[1..], k - 1, failed, now);
    }
  }

  lemma {:induction false} MarkNowhere(entries: seq<Entry>, raw: string, failed: bool, now: int)
    requires forall i | 0 <= i < |entries| :: entries[i].raw != raw
    ensures MarkIn(entries, raw, failed, now) == entries && RemoveFrom(entries, raw) == entries
  {
    if entries != [] {
      MarkNowhere(entries[1..], raw, failed, now);
    }
  }

  lemma {:induction false} RemoveAt(entries: seq<Entry>, k: nat)
    requires k < |entries| && forall i | 0 <= i < k :: entries[i].raw != entries[k].raw
    ensures RemoveFrom(entries, entries[k].raw) == entries[..k] + entries[k + 1..]
  {
    if k > 0 {
      RemoveAt(entries[1..], k - 1);
    }
  }

  class Pool {
    var entries: seq<PoolEntry>
    var next: nat

    ghost predicate Valid()
      reads this, entries
    {
      && AllDifferent(Value())
      && forall i, j | 0 <= i < j < |entries| :: entries[i] != entries[j]
    }

    ghost function Value(): State
      reads this, entries
    {
      State(Values(entries), next)
    }

    constructor ()
      ensures Valid() && Value() == State([], 0)
    {
      entries, next := [], 0;
    }

    method Add(raw: string)
      requires Valid() && forall e | e in Value().entries :: e.raw != raw
      modifies this`entries
      ensures Valid() && Value() == old(Value()).(entries := old(Value()).entries + [Entry(raw, 0, 0)])
      ensures |entries| == |old(entries)| + 1 && fresh(entries[|entries| - 1])
      ensures entries[..|entries| - 1] == old(entries)
    {
      var e := new PoolEntry(raw);
      ghost var before := Value().entries;
      entries := entries + [e];
      assert Values(entries) == before + [Entry(raw, 0, 0)];
    }

    /** Hands out an entry, or null when the pool is empty. */
    method PickEntry(now: int) returns (e: PoolEntry?)
      requires Valid()
      modifies this`next
      ensures Valid() && entries == old(entries)
      ensures Value() == Step(old(Value()), Pick(now))
      ensures e == null <==> entries == []
      ensures e != null ==> e == entries[Choice(old(Value()), now)]
    {
      if |entries| == 0 {
        return null;
      }
      ghost var st := Value();
      for i := 0 to |entries|
        invariant next == st.next && st.entries == Values(entries)
        invariant FirstReady(st, now, 0) == FirstReady(st, now, i)
      {
        e := entries[(next + i) % |entries|];
        assert e == entries[Slot(st, i)] && Cooling(st.entries[Slot(st, i)], now) == (now < e.cooldown);
        if now < e.cooldown {
          continue;
        }
        next := (next + i + 1) % |entries|;
        return e;
      }
      e := entries[next % |entries|];
      next := (next + 1) % |entries|;
    }

    method RecordAt(i: nat, failed: bool, now: int)
      requires Valid() && i < |entries|
      modifies entries[i]
      ensures Valid() && entries == old(entries)
      ensures Value() == State(old(Values(entries))[i := Marked(old(Values(entries))[i], failed, now)], old(next))
      ensures failed ==>
                && entries[i].failures == old(entries[i].failures) + 1
                && var n := entries[i].failures;
                   entries[i].cooldown == now + (if 2 * n <= 120 then 2 * n else 120) * 1_000_000_000
      ensures !failed ==> entries[i].failures == 0 && entries[i].cooldown == 0
    {
      entries[i].Record(failed, now);
      assert forall k | 0 <= k < |entries| && k != i :: entries[k].Value() == old(Values(entries))[k];
    }

    method MarkEntry(raw: string, failed: bool, now: int)
      requires Valid()
      modifies entries
      ensures Valid() && entries == old(entries)
      ensures Value() == Step(old(Value()), Mark(raw, failed, now))
      ensures forall e | e in entries && e.raw == raw ::
                && (failed ==>
                      && e.failures == old(e.failures) + 1
                      && var n := e.failures;
                         e.cooldown == now + (if 2 * n <= 120 then 2 * n else 120) * 1_000_000_000)
                && (!failed ==> e.failures == 0 && e.cooldown == 0)
      ensures forall e | e in entries && e.raw != raw :: e.failures == old(e.failures) && e.cooldown == old(e.cooldown)
    {
      ghost var st := Value();
      for i := 0 to |entries|
        invariant Value() == st
        invariant forall k | 0 <= k < i :: st.entries[k].raw != raw
      {
        if entries[i].raw == raw {
          RecordAt(i, failed, now);
          MarkAt(st.entries, i, failed, now);
          return;
        }
      }
      MarkNowhere(st.entries, raw, failed, now);
    }

    method RemoveEntry(raw: string)
      requires Valid()
      modifies this`entries
      ensures Valid()
      ensures Value() == Step(old(Value()), Remove(raw))
    {
      ghost var st := Value();
      for i := 0 to |entries|
        invariant Value() == st && entries == old(entries)
        invariant forall k | 0 <= k < i :: st.entries[k].raw != raw
      {
        if entries[i].raw == raw {
          entries := entries[..i] + entries[i + 1..];
          assert Values(entries) == st.entries[..i] + st.entries[i + 1..];
          RemoveAt(st.entries, i);
          return;
        }
      }
      MarkNowhere(st.entries, raw, false, 0);
    }
  }

  function NewEntries(raws: seq<string>): (es: seq<Entry>)
    ensures |es| == |raws|
    ensures forall k :: 0 <= k < |raws| ==> es[k] == Entry(raws[k], 0, 0)
  {
    seq(|raws|, k requires 0 <= k < |raws| => Entry(raws[k], 0, 0))
  }

  lemma NewEntriesGrow(raws: seq<string>, v: string)
    ensures NewEntries(raws + [v]) == NewEntries(raws) + [Entry(v, 0, 0)]
    ensures v !in raws ==> forall e | e in NewEntries(raws) :: e.raw != v
  {
  }

  lemma ListedGrows(urls: seq<string>, k: nat)
    requires k < |urls|
    ensures Listed(urls[..k + 1]) ==
              if urls[k] == "" || urls[k] in Listed(urls[..k]) then Listed(urls[..k]) else Listed(urls[..k]) + [urls[k]]
  {
    assert urls[..k + 1][..k] == urls[..k];
  }

  /** The loop of the constructor after `k` urls: `seen` is what is listed, and all of it was checked. */
  ghost predicate Listing(urls: seq<string>, k: nat, usable: string -> bool, seen: set<string>)
    requires k <= |urls|
  {
    && (forall u :: u in seen <==> u in Listed(urls[..k]))
    && (forall i | 0 <= i < k && urls[i] != "" :: usable(urls[i]))
  }

  lemma ListingGoesOn(urls: seq<string>, k: nat, usable: string -> bool, seen: set<string>)
    requires k < |urls| && Listing(urls, k, usable, seen)
    ensures urls[k] == "" || urls[k] in seen ==>
              Listing(urls, k + 1, usable, seen) && Listed(urls[..k + 1]) == Listed(urls[..k])
    ensures urls[k] != "" && urls[k] !in seen && usable(urls[k]) ==>
              Listing(urls, k + 1, usable, seen + {urls[k]}) && Listed(urls[..k + 1]) == Listed(urls[..k]) + [urls[k]]
  {
    ListedGrows(urls, k);
    ListedExactly(urls[..k]);
    if urls[k] in seen {
      var i :| 0 <= i < k && urls[i] == urls[k];
    }
  }

  method AddNew(pool: Pool, v: string, ghost listed: seq<string>)
    requires pool.Valid() && pool.Value() == State(NewEntries(listed), 0) && v !in listed
    modifies pool`entries
    ensures pool.Valid() && pool.Value() == State(NewEntries(listed + [v]), 0)
  {
    NewEntriesGrow(listed, v);
    pool.Add(v);
  }

  /** `usable` says which urls can be dialled; the first other one is reported. */
  method NewPool(urls: seq<string>, usable: string -> bool) returns (pool: Pool, bad: Option<string>)
    ensures fresh(pool) && pool.Valid()
    ensures bad.None? ==> pool.Value() == State(NewEntries(Listed(urls)), 0)
    ensures bad.None? <==> forall i | 0 <= i < |urls| && urls[i] != "" :: usable(urls[i])
    ensures bad.Some? ==> bad.value != "" && !usable(bad.value)
  {
    pool := new Pool();
    bad := None;
    var seen: set<string> := {};
    for k := 0 to |urls|
      invariant fresh(pool) && pool.Valid()
      invariant pool.Value() == State(NewEntries(Listed(urls[..k])), 0)
      invariant Listing(urls, k, usable, seen)
    {
      var v := urls[k];
      ListingGoesOn(urls, k, usable, seen);
      if v == "" || v in seen {
        continue;
      }
      if !usable(v) {
        return pool, Some(v);
      }
      seen := seen + {v};
      AddNew(pool, v, Listed(urls[..k]));
    }
    assert urls[..|urls|] == urls;
  }
}
