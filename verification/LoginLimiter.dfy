/** The administrator login limiter: a fixed window with a lock per address, in a bounded table. */
module LoginLimiter {

  /** Times are nanoseconds; 0 is Go's zero time, which lies before every real one. */
  const WINDOW: int := 15 * 60 * 1_000_000_000
  const MAX_FAILURES: nat := 5
  const MAX_ENTRIES: nat := 4096

  datatype Attempt = Attempt(failures: nat, windowStart: int, lockedUntil: int)

  type Table = map<string, Attempt>

  const NO_ATTEMPT := Attempt(0, 0, 0)

  function Lookup(t: Table, ip: string): Attempt {
    if ip in t then t[ip] else NO_ATTEMPT
  }

  predicate Expired(a: Attempt, now: int) {
    a.windowStart == 0 || now - a.windowStart > WINDOW
  }

  predicate Blocked(t: Table, ip: string, now: int) {
    now < Lookup(t, ip).lockedUntil
  }

  /** The table after the check that precedes every attempt. */
  function Checked(t: Table, ip: string, now: int): Table {
    if !Blocked(t, ip, now) && Expired(Lookup(t, ip), now) then t - {ip} else t
  }

  predicate Stale(a: Attempt, now: int) {
    now - a.windowStart > WINDOW && now > a.lockedUntil
  }

  function Purged(t: Table, now: int): Table {
    map ip | ip in t && !Stale(t[ip], now) :: t[ip]
  }

  /** The table that a failure is entered into. */
  function Room(t: Table, ip: string, now: int): Table {
    if ip !in t && |t| >= MAX_ENTRIES then Purged(t, now) else t
  }

  /** No room is left for a new address: its failure is not entered. */
  predicate Dropped(t: Table, ip: string, now: int) {
    ip !in t && |Room(t, ip, now)| >= MAX_ENTRIES
  }

  function Failed(a: Attempt, now: int): Attempt {
    var b := if Expired(a, now) then Attempt(0, now, 0) else a;
    var c := b.(failures := b.failures + 1);
    if c.failures >= MAX_FAILURES then c.(lockedUntil := now + WINDOW) else c
  }

  function Recorded(t: Table, ip: string, now: int): Table {
    var room := Room(t, ip, now);
    if Dropped(t, ip, now) then room else room[ip := Failed(Lookup(room, ip), now)]
  }

  datatype Request = Request(ip: string, now: int, correct: bool)

  datatype Outcome = TooMany | Denied | Granted

  function OutcomeOf(t: Table, r: Request): Outcome {
    if Blocked(t, r.ip, r.now) then TooMany else if r.correct then Granted else Denied
  }

  function Step(t: Table, r: Request): Table {
    match OutcomeOf(t, r)
    case TooMany => t
    case Denied => Recorded(Checked(t, r.ip, r.now), r.ip, r.now)
    case Granted => Checked(t, r.ip, r.now) - {r.ip}
  }

  function Run(t: Table, rs: seq<Request>): Table
    decreases |rs|
  {
    if rs == [] then t else Run(Step(t, rs[0]), rs[1..])
  }

  /** Requests are handled one after the other and the clock does not go back. */
  ghost predicate Timed(clock: int, rs: seq<Request>) {
    && (forall k | 0 <= k < |rs| :: clock <= rs[k].now)
    && (forall i, j | 0 <= i < j < |rs| :: rs[i].now <= rs[j].now)
  }

  lemma TimedTail(clock: int, rs: seq<Request>)
    requires rs != [] && Timed(clock, rs)
    ensures Timed(rs[0].now, rs[1..])
  {
  }

  // ---------------------------------------------------------------------------------------------
  // The table is bounded and a lock is kept
  // ---------------------------------------------------------------------------------------------

  lemma PurgedShrinks(t: Table, now: int)
    ensures |Purged(t, now)| <= |t|
  {
    assert Purged(t, now).Keys <= t.Keys;
    Smaller(Purged(t, now).Keys, t.Keys);
  }

  lemma Smaller<T>(a: set<T>, b: set<T>)
    requires a <= b
    ensures |a| <= |b|
  {
    assert b == a + (b - a);
  }

  lemma FewerKeys(t: Table, ips: set<string>)
    ensures |t - ips| <= |t|
  {
    assert (t - ips).Keys <= t.Keys;
    Smaller((t - ips).Keys, t.Keys);
  }

  lemma RecordedBounded(t: Table, ip: string, now: int)
    requires |t| <= MAX_ENTRIES
    ensures |Recorded(t, ip, now)| <= MAX_ENTRIES
  {
    PurgedShrinks(t, now);
    var room := Room(t, ip, now);
    if !Dropped(t, ip, now) {
      var after := room[ip := Failed(Lookup(room, ip), now)];
      assert after.Keys == room.Keys + {ip};
      assert ip in room ==> after.Keys == room.Keys;
    }
  }

  lemma StepBounded(t: Table, r: Request)
    requires |t| <= MAX_ENTRIES
    ensures |Step(t, r)| <= MAX_ENTRIES
  {
    FewerKeys(t, {r.ip});
    FewerKeys(Checked(t, r.ip, r.now), {r.ip});
    RecordedBounded(Checked(t, r.ip, r.now), r.ip, r.now);
  }

  /** The table never has more than 4096 entries, whoever logs in or fails. */
  lemma {:induction false} TableBounded(t: Table, rs: seq<Request>)
    requires |t| <= 4096
    ensures |Run(t, rs)| <= 4096
    decreases |rs|
  {
    if rs != [] {
      StepBounded(t, rs[0]);
      TableBounded(Step(t, rs[0]), rs[1..]);
    }
  }

  /** A locked address is refused whatever the password is; any other attempt is decided by the
      password alone, and the right one forgets the failures of its address and of no other. */
  lemma OutcomeExactly(t: Table, r: Request)
    requires 0 <= r.now
    ensures var locked := r.ip in t && r.now < t[r.ip].lockedUntil;
            && (OutcomeOf(t, r) == TooMany <==> locked)
            && (OutcomeOf(t, r) == Granted <==> !locked && r.correct)
            && (OutcomeOf(t, r) == Denied <==> !locked && !r.correct)
            && (locked ==> Step(t, r) == t)
            && (OutcomeOf(t, r) == Granted ==> Step(t, r) == map ip | ip in t && ip != r.ip :: t[ip])
  {
  }

  /** The purge loses nothing: for every address, whether it is locked and what its next failure leads
      to are the same with and without it, then and ever after. */
  lemma PurgeIsInvisible(t: Table, now: int, ip: string, later: int)
    requires now <= later && 0 <= later
    ensures Blocked(Purged(t, now), ip, later) == Blocked(t, ip, later)
    ensures !Blocked(t, ip, later) ==> Failed(Lookup(Purged(t, now), ip), later) == Failed(Lookup(t, ip), later)
    ensures ip in Purged(t, now) ==> ip in t && Purged(t, now)[ip] == t[ip]
    ensures ip in t && ip !in Purged(t, now) ==> now - t[ip].windowStart > 900_000_000_000 && now > t[ip].lockedUntil
    ensures ip in Purged(t, now) ==> now - t[ip].windowStart <= 900_000_000_000 || now <= t[ip].lockedUntil
  {
  }

  /** A lock holds for its whole time: until then no request of any address changes the entry, so
      every request of this address is refused. */
  lemma {:induction false} LockLasts(t: Table, ip: string, rs: seq<Request>, r: Request)
    requires ip in t
    requires forall k | 0 <= k < |rs| :: rs[k].now < t[ip].lockedUntil
    requires r.ip == ip && r.now < t[ip].lockedUntil
    ensures ip in Run(t, rs) && Run(t, rs)[ip] == t[ip]
    ensures OutcomeOf(Run(t, rs), r) == TooMany
    decreases |rs|
  {
    if rs != [] {
      assert ip in Step(t, rs[0]) && Step(t, rs[0])[ip] == t[ip];
      LockLasts(Step(t, rs[0]), ip, rs[1..], r);
    }
  }

  /** The fifth failure in a window locks the address for fifteen minutes from that failure. */
  lemma FifthFailureLocks(t: Table, r: Request, rs: seq<Request>, later: Request)
    requires OutcomeOf(t, r) == Denied && !Dropped(Checked(t, r.ip, r.now), r.ip, r.now)
    requires Step(t, r)[r.ip].failures >= 5
    requires forall k | 0 <= k < |rs| :: rs[k].now < r.now + 900_000_000_000
    requires later.ip == r.ip && later.now < r.now + 900_000_000_000
    ensures OutcomeOf(Run(Step(t, r), rs), later) == TooMany
  {
    LockLasts(Step(t, r), r.ip, rs, later);
  }

  // ---------------------------------------------------------------------------------------------
  // The failures of one address
  // ---------------------------------------------------------------------------------------------

  /** The times of the attempts of `ip` that were let through and failed. */
  function FailureTimes(t: Table, rs: seq<Request>, ip: string): seq<int>
    decreases |rs|
  {
    if rs == [] then []
    else (if rs[0].ip == ip && OutcomeOf(t, rs[0]) == Denied then [rs[0].now] else []) +
         FailureTimes(Step(t, rs[0]), rs[1..], ip)
  }

  /** `ip` never logs in, and whenever it fails there is room in the table. */
  ghost predicate Counted(t: Table, rs: seq<Request>, ip: string)
    decreases |rs|
  {
    rs == [] ||
    (&& (rs[0].ip == ip ==> OutcomeOf(t, rs[0]) != Granted)
     && (rs[0].ip == ip && OutcomeOf(t, rs[0]) == Denied ==>
           !Dropped(Checked(t, ip, rs[0].now), ip, rs[0].now))
     && Counted(Step(t, rs[0]), rs[1..], ip))
  }

  /** A failure together with the window and the count it was entered under. */
  datatype Event = Event(time: int, start: int, count: nat)

  function Log(t: Table, rs: seq<Request>, ip: string): seq<Event>
    decreases |rs|
  {
    if rs == [] then []
    else
      var t' := Step(t, rs[0]);
      (if rs[0].ip == ip && OutcomeOf(t, rs[0]) == Denied
       then [Event(rs[0].now, Lookup(t', ip).windowStart, Lookup(t', ip).failures)] else []) +
      Log(t', rs[1..], ip)
  }

  ghost predicate EventOk(e: Event) {
    0 < e.start <= e.time && e.count >= 1 && (e.count == 1 ==> e.start == e.time)
  }

  /** How the next failure follows a failure: in the same window or in a new one, and after a lock
      not before fifteen minutes. */
  ghost predicate Follows(e: Event, f: Event) {
    && e.time <= f.time
    && (e.count >= MAX_FAILURES ==> e.time + WINDOW <= f.time)
    && (|| (f.start == e.start && f.count == e.count + 1)
        || (f.start == f.time && f.count == 1 && f.time > e.start + WINDOW))
  }

  ghost predicate LogOk(log: seq<Event>) {
    && (forall k | 0 <= k < |log| :: EventOk(log[k]))
    && (forall k, l | 0 <= k && l == k + 1 < |log| :: Follows(log[k], log[l]))
  }

  function EntryOf(e: Event): Attempt {
    Attempt(e.count, e.start, if e.count >= MAX_FAILURES then e.time + WINDOW else 0)
  }

  /** The table remembers the last failure of `ip`, or has forgotten it at a time when it makes no
      difference any more. */
  ghost predicate Remembers(t: Table, ip: string, last: seq<Event>, clock: int) {
    if last == [] then ip !in t
    else
      var e := last[0];
      && |last| == 1 && EventOk(e) && e.time <= clock
      && (ip in t ==> t[ip] == EntryOf(e))
      && (ip !in t ==> clock > e.start + WINDOW && (e.count >= MAX_FAILURES ==> clock >= e.time + WINDOW))
  }

  lemma StepRemembers(t: Table, r: Request, ip: string, last: seq<Event>, clock: int)
    requires Remembers(t, ip, last, clock) && 0 < clock <= r.now
    requires r.ip != ip || OutcomeOf(t, r) == TooMany
    ensures Remembers(Step(t, r), ip, last, r.now)
  {
  }

  lemma FailureRemembered(t: Table, r: Request, ip: string, last: seq<Event>, clock: int)
    requires Remembers(t, ip, last, clock) && 0 < clock <= r.now
    requires r.ip == ip && OutcomeOf(t, r) == Denied && !Dropped(Checked(t, ip, r.now), ip, r.now)
    ensures var a := Lookup(Step(t, r), ip);
            var f := Event(r.now, a.windowStart, a.failures);
            && Remembers(Step(t, r), ip, [f], r.now)
            && (last != [] ==> Follows(last[0], f))
  {
  }

  lemma {:induction false} LogTimes(t: Table, rs: seq<Request>, ip: string)
    ensures |Log(t, rs, ip)| == |FailureTimes(t, rs, ip)|
    ensures forall k | 0 <= k < |Log(t, rs, ip)| :: Log(t, rs, ip)[k].time == FailureTimes(t, rs, ip)[k]
    decreases |rs|
  {
    if rs != [] {
      LogTimes(Step(t, rs[0]), rs[1..], ip);
      LogFront(t, rs, ip);
    }
  }

  /** Both lists grow by the same failure, or neither grows. */
  lemma LogFront(t: Table, rs: seq<Request>, ip: string)
    requires rs != []
    ensures var t' := Step(t, rs[0]);
            var log, times := Log(t', rs[1..], ip), FailureTimes(t', rs[1..], ip);
            if rs[0].ip == ip && OutcomeOf(t, rs[0]) == Denied
            then Log(t, rs, ip) == [Event(rs[0].now, Lookup(t', ip).windowStart, Lookup(t', ip).failures)] + log
                 && FailureTimes(t, rs, ip) == [rs[0].now] + times
            else Log(t, rs, ip) == log && FailureTimes(t, rs, ip) == times
  {
    var t' := Step(t, rs[0]);
    var log, times := Log(t', rs[1..], ip), FailureTimes(t', rs[1..], ip);
    assert [] + log == log && [] + times == times;
  }

  lemma {:induction false} LogIsOk(t: Table, rs: seq<Request>, ip: string, last: seq<Event>, clock: int)
    requires Remembers(t, ip, last, clock) && 0 < clock && Timed(clock, rs) && Counted(t, rs, ip)
    ensures LogOk(last + Log(t, rs, ip))
    decreases |rs|
  {
    if rs == [] {
      assert last + [] == last;
    } else {
      var r, t' := rs[0], Step(t, rs[0]);
      TimedTail(clock, rs);
      LogFront(t, rs, ip);
      if r.ip == ip && OutcomeOf(t, r) == Denied {
        FailureRemembered(t, r, ip, last, clock);
        var f := Event(r.now, Lookup(t', ip).windowStart, Lookup(t', ip).failures);
        LogIsOk(t', rs[1..], ip, [f], r.now);
        Prepend(last, [f] + Log(t', rs[1..], ip));
      } else {
        StepRemembers(t, r, ip, last, clock);
        LogIsOk(t', rs[1..], ip, last, r.now);
      }
    }
  }

  lemma Prepend(last: seq<Event>, log: seq<Event>)
    requires |last| <= 1 && log != [] && LogOk(log)
    requires last != [] ==> EventOk(last[0]) && Follows(last[0], log[0])
    ensures LogOk(last + log)
  {
    var all := last + log;
    forall k, l | 0 <= k && l == k + 1 < |all| ensures Follows(all[k], all[l]) {
      if k >= |last| {
        assert all[k] == log[k - |last|] && all[l] == log[l - |last|];
      }
    }
  }

  lemma {:induction false} LogSorted(log: seq<Event>, i: nat, j: nat)
    requires LogOk(log) && i <= j < |log|
    ensures log[i].time <= log[j].time
  {
    if i < j {
      LogSorted(log, i, j - 1);
      assert Follows(log[j - 1], log[j]);
    }
  }

  /** Nine failures in a row never fit into fifteen minutes. */
  lemma NineFailuresSpan(log: seq<Event>, i: nat)
    requires LogOk(log) && i + 8 < |log|
    ensures log[i + 8].time >= log[i].time + WINDOW
  {
    assert Follows(log[i], log[i + 1]) && Follows(log[i + 1], log[i + 2]);
    assert Follows(log[i + 2], log[i + 3]) && Follows(log[i + 3], log[i + 4]);
    assert Follows(log[i + 4], log[i + 5]) && Follows(log[i + 5], log[i + 6]);
    assert Follows(log[i + 6], log[i + 7]) && Follows(log[i + 7], log[i + 8]);
    assert EventOk(log[i]) && EventOk(log[i + 1]) && EventOk(log[i + 2]) && EventOk(log[i + 3]) && EventOk(log[i + 4]);
  }

  /** The failures from number `from` on that fall into the fifteen minutes after `x`. */
  function Within(times: seq<int>, from: nat, x: int): set<int> {
    set k | from <= k < |times| && x <= times[k] < x + 900_000_000_000
  }

  lemma {:induction false} FewWithin(log: seq<Event>, times: seq<int>, from: nat, x: int)
    requires LogOk(log) && |log| == |times| && forall k | 0 <= k < |log| :: log[k].time == times[k]
    requires from <= |times|
    ensures |Within(times, from, x)| <= 8
    decreases |times| - from
  {
    var hits := Within(times, from, x);
    if from == |times| {
      assert hits == {};
    } else if x <= times[from] < x + 900_000_000_000 {
      forall k | k in hits ensures k < from + 8 {
        if from + 8 <= k {
          NineFailuresSpan(log, from);
          LogSorted(log, from + 8, k);
        }
      }
      FewIn(hits, from, 8);
    } else {
      FewWithin(log, times, from + 1, x);
      assert hits == Within(times, from + 1, x);
    }
  }

  lemma {:induction false} FewIn(s: set<int>, lo: int, n: nat)
    requires forall k | k in s :: lo <= k < lo + n
    ensures |s| <= n
  {
    if n == 0 {
      assert forall k :: k !in s;
      assert s == {};
    } else {
      var rest := s - {lo + n - 1};
      FewIn(rest, lo, n - 1);
      assert s <= rest + {lo + n - 1};
      Smaller(s, rest + {lo + n - 1});
    }
  }

  /** In any run in which an address that is not in the table at the start neither logs in nor meets
      a full table, at most eight of its failures fall into any half-open interval of fifteen
      minutes. */
  lemma AtMostEightFailures(t: Table, rs: seq<Request>, ip: string, clock: int, x: int)
    requires ip !in t && 0 < clock && Timed(clock, rs) && Counted(t, rs, ip)
    ensures |Within(FailureTimes(t, rs, ip), 0, x)| <= 8
  {
    LogIsOk(t, rs, ip, [], clock);
    LogTimes(t, rs, ip);
    assert [] + Log(t, rs, ip) == Log(t, rs, ip);
    FewWithin(Log(t, rs, ip), FailureTimes(t, rs, ip), 0, x);
  }

  /** That holds from the first request on, and anew after each login of the address: whatever came
      before, between two of its logins no fifteen minutes hold more than eight failures. */
  lemma AtMostEightAfterLogin(before: Table, login: Request, rs: seq<Request>, x: int)
    requires OutcomeOf(before, login) == Granted && 0 < login.now && Timed(login.now, rs)
    requires Counted(Step(before, login), rs, login.ip)
    ensures |Within(FailureTimes(Step(before, login), rs, login.ip), 0, x)| <= 8
  {
    AtMostEightFailures(Step(before, login), rs, login.ip, login.now, x);
  }

  // ---------------------------------------------------------------------------------------------
  // The bound is reached
  // ---------------------------------------------------------------------------------------------

  function Wrong(ip: string, times: seq<int>): seq<Request> {
    if times == [] then [] else [Request(ip, times[0], false)] + Wrong(ip, times[1..])
  }

  /** No lock stands in the way of failures at these times. */
  predicate Open(a: Attempt, times: seq<int>)
    decreases |times|
  {
    times == [] || (times[0] >= a.lockedUntil && Open(Failed(a, times[0]), times[1..]))
  }

  lemma OnlyAddress(t: Table, ip: string, now: int)
    requires t.Keys <= {ip} && now >= Lookup(t, ip).lockedUntil
    ensures var r := Request(ip, now, false);
            && OutcomeOf(t, r) == Denied && !Dropped(Checked(t, ip, now), ip, now)
            && Step(t, r) == map[ip := Failed(Lookup(t, ip), now)]
  {
    var checked := Checked(t, ip, now);
    assert checked.Keys <= t.Keys;
    Smaller(checked.Keys, {ip});
    assert |checked| == |checked.Keys| <= 1 && Room(checked, ip, now) == checked;
    var failed := Failed(Lookup(t, ip), now);
    assert Failed(Lookup(checked, ip), now) == failed;
    assert Recorded(checked, ip, now) == checked[ip := failed] == map[ip := failed];
  }

  lemma {:induction false} OnlyFailures(t: Table, ip: string, times: seq<int>)
    requires t.Keys <= {ip} && Open(Lookup(t, ip), times)
    ensures FailureTimes(t, Wrong(ip, times), ip) == times && Counted(t, Wrong(ip, times), ip)
    decreases |times|
  {
    if times != [] {
      OneFailureFirst(t, ip, times[0], Wrong(ip, times[1..]));
      OnlyFailures(map[ip := Failed(Lookup(t, ip), times[0])], ip, times[1..]);
    }
  }

  lemma OneFailureFirst(t: Table, ip: string, now: int, rs: seq<Request>)
    requires t.Keys <= {ip} && now >= Lookup(t, ip).lockedUntil
    ensures var all := [Request(ip, now, false)] + rs;
            var t' := map[ip := Failed(Lookup(t, ip), now)];
            && FailureTimes(t, all, ip) == [now] + FailureTimes(t', rs, ip)
            && (Counted(t, all, ip) <==> Counted(t', rs, ip))
  {
    OnlyAddress(t, ip, now);
    var r := Request(ip, now, false);
    OneMoreFailure(t, r, rs);
    assert ([r] + rs)[0] == r && ([r] + rs)[1..] == rs;
  }

  /** One failure opens a window, three fall on its last instant and five into the next window. */
  const WORST: seq<int> :=
    [1, 1 + WINDOW, 1 + WINDOW, 1 + WINDOW, 2 + WINDOW, 2 + WINDOW, 2 + WINDOW, 2 + WINDOW, 2 + WINDOW]

  lemma WorstIsOpen()
    ensures Open(NO_ATTEMPT, WORST)
  {
    var late, soon := 2 + WINDOW, 1 + WINDOW;
    assert Open(Attempt(3, late, 0), [late, late]) by { assert [late, late][1..] == [late]; }
    assert Open(Attempt(1, late, 0), [late, late, late, late]) by {
      assert [late, late, late, late][1..] == [late, late, late];
      assert [late, late, late][1..] == [late, late];
    }
    assert Open(Attempt(4, 1, 0), [late, late, late, late, late]) by {
      assert [late, late, late, late, late][1..] == [late, late, late, late];
    }
    assert Open(Attempt(2, 1, 0), [soon, soon] + WORST[4..]) by {
      assert ([soon, soon] + WORST[4..])[1..] == [soon] + WORST[4..];
      assert ([soon] + WORST[4..])[1..] == [late, late, late, late, late];
    }
    assert WORST[1..] == [soon] + ([soon, soon] + WORST[4..]);
    assert ([soon] + ([soon, soon] + WORST[4..]))[1..] == [soon, soon] + WORST[4..];
  }

  /** Eight failures in fifteen minutes do happen, in a run that meets every condition of the bound. */
  lemma EightIsReached(ip: string)
    ensures Timed(1, Wrong(ip, WORST)) && Counted(map[], Wrong(ip, WORST), ip)
    ensures |Within(FailureTimes(map[], Wrong(ip, WORST), ip), 0, 1 + WINDOW)| == 8
  {
    WorstIsOpen();
    OnlyFailures(map[], ip, WORST);
    WrongTimes(ip, WORST);
    WorstIsTimed();
  }

  lemma WorstIsTimed()
    ensures forall i, j | 0 <= i < j < |WORST| :: 1 <= WORST[i] <= WORST[j]
    ensures |Within(WORST, 0, 1 + WINDOW)| == 8
  {
    assert Within(WORST, 0, 1 + WINDOW) == {1, 2, 3, 4, 5, 6, 7, 8};
  }

  lemma {:induction false} WrongTimes(ip: string, times: seq<int>)
    ensures |Wrong(ip, times)| == |times|
    ensures forall k | 0 <= k < |times| :: Wrong(ip, times)[k].now == times[k]
  {
    if times != [] {
      WrongTimes(ip, times[1..]);
    }
  }

  // ---------------------------------------------------------------------------------------------
  // A full table
  // ---------------------------------------------------------------------------------------------

  /** A failure is entered if and only if the address is known or a place is free after the purge. */
  lemma EnteredExactly(t: Table, ip: string, now: int)
    ensures ip in Recorded(t, ip, now) <==> ip in t || |t| < 4096 || |Purged(t, now)| < 4096
  {
  }

  function Again(r: Request, n: nat): seq<Request> {
    if n == 0 then [] else [r] + Again(r, n - 1)
  }

  /** The bound needs the free place: an address that meets a full table is not counted at all. */
  lemma FullTableDoesNotCount(t: Table, r: Request, n: nat)
    requires !r.correct && r.now > 0 && Dropped(t, r.ip, r.now)
    ensures |FailureTimes(t, Again(r, n), r.ip)| == n
  {
    DroppedAgain(t, r);
    DeniedAgain(t, r, n);
  }

  lemma DeniedAgain(t: Table, r: Request, n: nat)
    requires OutcomeOf(t, r) == Denied
    requires OutcomeOf(Step(t, r), r) == Denied && Step(Step(t, r), r) == Step(t, r)
    ensures |FailureTimes(t, Again(r, n), r.ip)| == n
  {
    if n > 0 {
      AgainFront(t, r, n);
      SameFailureAgain(Step(t, r), r, n - 1);
    }
  }

  lemma {:induction false} SameFailureAgain(t: Table, r: Request, n: nat)
    requires OutcomeOf(t, r) == Denied && Step(t, r) == t
    ensures |FailureTimes(t, Again(r, n), r.ip)| == n
  {
    if n > 0 {
      AgainFront(t, r, n);
      SameFailureAgain(t, r, n - 1);
    }
  }

  lemma AgainFront(t: Table, r: Request, n: nat)
    requires OutcomeOf(t, r) == Denied && n > 0
    ensures |FailureTimes(t, Again(r, n), r.ip)| == 1 + |FailureTimes(Step(t, r), Again(r, n - 1), r.ip)|
  {
    OneMoreFailure(t, r, Again(r, n - 1));
  }

  /** A failure that is not entered leaves the address unknown and the table full. */
  lemma DroppedAgain(t: Table, r: Request)
    requires !r.correct && r.now > 0 && Dropped(t, r.ip, r.now)
    ensures OutcomeOf(t, r) == Denied
    ensures OutcomeOf(Step(t, r), r) == Denied && Step(Step(t, r), r) == Step(t, r)
  {
    assert Checked(t, r.ip, r.now) == t;
    var t' := Room(t, r.ip, r.now);
    assert Step(t, r) == t' == Purged(t, r.now) && r.ip !in t';
    assert Checked(t', r.ip, r.now) == t';
    assert Purged(t', r.now) == t';
  }

  lemma OneMoreFailure(t: Table, r: Request, rs: seq<Request>)
    requires OutcomeOf(t, r) == Denied
    ensures FailureTimes(t, [r] + rs, r.ip) == [r.now] + FailureTimes(Step(t, r), rs, r.ip)
  {
    assert ([r] + rs)[1..] == rs;
  }

  // ---------------------------------------------------------------------------------------------
  // A run that fills the table
  // ---------------------------------------------------------------------------------------------

  /** As many different addresses as one likes: the k-th is k runes long. */
  function Address(k: nat): (ip: string)
    ensures |ip| == k && forall i | 0 <= i < k :: ip[i] == 'x'
  {
    if k == 0 then "" else Address(k - 1) + "x"
  }

  function Flood(n: nat): seq<Request> {
    if n == 0 then [] else Flood(n - 1) + [Request(Address(n - 1), 1, false)]
  }

  function Flooded(n: nat): Table {
    if n == 0 then map[] else Flooded(n - 1)[Address(n - 1) := Attempt(1, 1, 0)]
  }

  lemma {:induction false} FloodedSize(n: nat)
    ensures |Flooded(n)| == n
    ensures forall ip | ip in Flooded(n) ::
              |ip| < n && Flooded(n)[ip] == Attempt(1, 1, 0) && forall i | 0 <= i < |ip| :: ip[i] == 'x'
  {
    if n > 0 {
      FloodedSize(n - 1);
      assert Address(n - 1) !in Flooded(n - 1);
      assert Flooded(n).Keys == Flooded(n - 1).Keys + {Address(n - 1)};
    }
  }

  lemma {:induction false} RunSnoc(t: Table, rs: seq<Request>, r: Request)
    ensures Run(t, rs + [r]) == Step(Run(t, rs), r)
    decreases |rs|
  {
    if rs == [] {
      assert [] + [r] == [r] && [r][1..] == [];
    } else {
      assert (rs + [r])[1..] == rs[1..] + [r];
      RunSnoc(Step(t, rs[0]), rs[1..], r);
    }
  }

  /** One more address fails once. */
  lemma FloodStep(n: nat)
    requires n < MAX_ENTRIES
    ensures Step(Flooded(n), Request(Address(n), 1, false)) == Flooded(n + 1)
  {
    FloodedSize(n);
    var t, ip := Flooded(n), Address(n);
    assert ip !in t;
    assert Checked(t, ip, 1) == t;
  }

  lemma {:induction false} FloodFills(n: nat)
    requires n <= MAX_ENTRIES
    ensures Run(map[], Flood(n)) == Flooded(n)
  {
    if n > 0 {
      FloodFills(n - 1);
      RunSnoc(map[], Flood(n - 1), Request(Address(n - 1), 1, false));
      FloodStep(n - 1);
    }
  }

  lemma NothingStale(t: Table, now: int)
    requires forall ip | ip in t :: !Stale(t[ip], now)
    ensures Purged(t, now) == t
  {
  }

  lemma FullDrops(t: Table, ip: string, now: int)
    requires ip !in t && |t| >= MAX_ENTRIES && Purged(t, now) == t
    ensures Dropped(t, ip, now)
  {
  }

  /** A run from the empty table on which it happens: 4096 addresses fail once, and after that any
      number of failures of one more address within the window go uncounted and are never locked. */
  lemma FloodHidesFailures(ip: string, now: int, n: nat)
    requires ip != "" && ip[0] != 'x' && 0 < now <= 1 + WINDOW
    ensures |FailureTimes(Run(map[], Flood(MAX_ENTRIES)), Again(Request(ip, now, false), n), ip)| == n
  {
    FloodFills(MAX_ENTRIES);
    FloodedSize(MAX_ENTRIES);
    NothingStale(Flooded(MAX_ENTRIES), now);
    FullDrops(Flooded(MAX_ENTRIES), ip, now);
    FullTableDoesNotCount(Flooded(MAX_ENTRIES), Request(ip, now, false), n);
  }

  // ---------------------------------------------------------------------------------------------
  // The handlers
  // ---------------------------------------------------------------------------------------------

  class Limiter {
    var loginAttempts: Table

    constructor ()
      ensures loginAttempts == map[]
    {
      loginAttempts := map[];
    }

    method LoginAllowed(ip: string, now: int) returns (ok: bool)
      modifies this
      ensures ok == !Blocked(old(loginAttempts), ip, now)
      ensures loginAttempts == Checked(old(loginAttempts), ip, now)
    {
      var a := Lookup(loginAttempts, ip);
      if now < a.lockedUntil {
        return false;
      }
      if a.windowStart == 0 || now - a.windowStart > WINDOW {
        loginAttempts := loginAttempts - {ip};
      }
      ok := true;
    }

    method RecordLoginFailure(ip: string, now: int)
      modifies this
      ensures loginAttempts == Recorded(old(loginAttempts), ip, now)
    {
      if ip !in loginAttempts && |loginAttempts| >= MAX_ENTRIES {
        var keys := loginAttempts.Keys;
        while keys != {}
          invariant keys <= loginAttempts.Keys <= old(loginAttempts).Keys
          invariant forall k | k in loginAttempts :: loginAttempts[k] == old(loginAttempts)[k]
          invariant forall k | k in old(loginAttempts) && k !in keys ::
                      k in loginAttempts <==> !Stale(old(loginAttempts)[k], now)
          decreases |keys|
        {
          var key :| key in keys;
          keys := keys - {key};
          if Stale(loginAttempts[key], now) {
            loginAttempts := loginAttempts - {key};
          }
        }
        assert loginAttempts == Purged(old(loginAttempts), now);
        if |loginAttempts| >= MAX_ENTRIES {
          return;
        }
      }
      var a := Lookup(loginAttempts, ip);
      if a.windowStart == 0 || now - a.windowStart > WINDOW {
        a := Attempt(0, now, 0);
      }
      a := a.(failures := a.failures + 1);
      if a.failures >= 5 {
        a := a.(lockedUntil := now + WINDOW);
      }
      loginAttempts := loginAttempts[ip := a];
    }

    method ClearLoginFailures(ip: string)
      modifies this
      ensures loginAttempts == old(loginAttempts) - {ip}
    {
      loginAttempts := loginAttempts - {ip};
    }

    /** One login request, as one atomic step. */
    method AdminLogin(r: Request) returns (outcome: Outcome)
      requires |loginAttempts| <= 4096
      modifies this
      ensures outcome == OutcomeOf(old(loginAttempts), r)
      ensures loginAttempts == Step(old(loginAttempts), r)
      ensures |loginAttempts| <= 4096
    {
      StepBounded(loginAttempts, r);
      var ok := LoginAllowed(r.ip, r.now);
      if !ok {
        return TooMany;
      }
      if !r.correct {
        RecordLoginFailure(r.ip, r.now);
        return Denied;
      }
      ClearLoginFailures(r.ip);
      outcome := Granted;
    }
  }
}
