/**
  What the health manager promises, first as a state machine for one backend,
  then as a statement about the backend's event history alone.
 */
module HealthSpec {
  import opened Wrappers

  /** Times and durations in nanoseconds. The constructor never yields a threshold below 1. */
  datatype Policy = Policy(enabled: bool, threshold: nat, cooldown: int)

  /** The mutable part of a backend's state; `None` is the zero time. */
  datatype Cell = Cell(policy: Policy, failures: nat, until: Option<int>)

  datatype Op = Success(at: int) | Failure(at: int) | Scrape(at: int)

  function Fresh(p: Policy): Cell {
    Cell(p, 0, None)
  }

  predicate Cooling(c: Cell, now: int) {
    c.until.Some? && c.until.value > now
  }

  function Apply(c: Cell, op: Op): Cell {
    match op
    case Success(now) =>
      if !c.policy.enabled || Cooling(c, now) then c else Fresh(c.policy)
    case Failure(now) =>
      if !c.policy.enabled then c
      else if c.failures + 1 >= c.policy.threshold then
        Cell(c.policy, c.failures + 1, Some(now + c.policy.cooldown))
      else c.(failures := c.failures + 1)
    case Scrape(now) =>
      if c.until.Some? && !Cooling(c, now) then Fresh(c.policy) else c
  }

  function Run(c: Cell, log: seq<Op>): (r: Cell)
    ensures r.policy == c.policy
  {
    if log == [] then c else Apply(Run(c, log[..|log| - 1]), log[|log| - 1])
  }

  lemma RunOne(c: Cell, log: seq<Op>, op: Op)
    ensures Run(c, log + [op]) == Apply(Run(c, log), op)
  {
    assert (log + [op])[..|log + [op]| - 1] == log;
  }

  lemma {:induction false} RunConcat(c: Cell, a: seq<Op>, b: seq<Op>)
    ensures Run(c, a + b) == Run(Run(c, a), b)
  {
    if b == [] {
      assert a + b == a;
    } else {
      assert (a + b)[..|a + b| - 1] == a + b[..|b| - 1];
      RunConcat(c, a, b[..|b| - 1]);
    }
  }

  /** Counter and deadline in step: the deadline is set exactly when the counter reached the threshold. */
  predicate InStep(c: Cell) {
    && c.policy.threshold >= 1
    && (c.until.Some? <==> c.failures >= c.policy.threshold)
    && (!c.policy.enabled ==> c.failures == 0)
  }

  lemma {:induction false} RunKeepsInStep(c: Cell, log: seq<Op>)
    requires InStep(c)
    ensures InStep(Run(c, log))
  {
    if log != [] {
      RunKeepsInStep(c, log[..|log| - 1]);
    }
  }

  // ---- The history, with no state ----

  function CountFailures(log: seq<Op>): nat {
    if log == [] then 0
    else CountFailures(log[..|log| - 1]) + if log[|log| - 1].Failure? then 1 else 0
  }

  /** When the last failure was reported. */
  function LastFailureAt(log: seq<Op>): Option<int> {
    if log == [] then None
    else if log[|log| - 1].Failure? then Some(log[|log| - 1].at)
    else LastFailureAt(log[..|log| - 1])
  }

  /** The position just after the last effective reset; 0 when there was none. */
  ghost function SegmentStart(p: Policy, log: seq<Op>): (s: nat)
    ensures s <= |log|
    ensures s > 0 ==> EffectiveReset(p, log[..s - 1], log[s - 1])
    ensures forall i | s <= i < |log| :: !EffectiveReset(p, log[..i], log[i])
    decreases |log|, 0
  {
    if log == [] then 0
    else
      var n := |log| - 1;
      if EffectiveReset(p, log[..n], log[n]) then |log|
      else
        var s := SegmentStart(p, log[..n]);
        assert forall i | 0 <= i <= n :: log[..n][..i] == log[..i];
        s
  }

  ghost function FailuresSinceReset(p: Policy, log: seq<Op>): nat
    decreases |log|, 1
  {
    CountFailures(log[SegmentStart(p, log)..])
  }

  ghost predicate Tripped(p: Policy, log: seq<Op>)
    decreases |log|, 2
  {
    FailuresSinceReset(p, log) >= p.threshold
  }

  /** The backend is out of rotation at `now`, judged from its history. */
  ghost predicate CoolingAt(p: Policy, log: seq<Op>, now: int)
    decreases |log|, 3
  {
    Tripped(p, log) && LastFailureAt(log).Some? && LastFailureAt(log).value + p.cooldown > now
  }

  /** A success outside cooldown, or a scrape that finds an expired cooldown. */
  ghost predicate EffectiveReset(p: Policy, before: seq<Op>, op: Op)
    decreases |before|, 4
  {
    match op
    case Success(now) => !CoolingAt(p, before, now)
    case Failure(_) => false
    case Scrape(now) => Tripped(p, before) && !CoolingAt(p, before, now)
  }

  lemma {:induction false} FailuresHaveALast(log: seq<Op>, s: nat)
    requires s <= |log| && CountFailures(log[s..]) > 0
    ensures LastFailureAt(log).Some?
  {
    var n := |log| - 1;
    assert log[s..][..|log[s..]| - 1] == log[..n][s..];
    if !log[n].Failure? {
      FailuresHaveALast(log[..n], s);
    }
  }

  /**
    The state machine refines the history: the counter is the number of
    failures since the last effective reset, and the deadline is set exactly
    when that number reached the threshold, one cooldown after the last failure.
   */
  lemma {:induction false} RunRefinesHistory(p: Policy, log: seq<Op>)
    requires p.enabled && p.threshold >= 1
    ensures var c := Run(Fresh(p), log);
            && c.failures == FailuresSinceReset(p, log)
            && (c.until.Some? <==> Tripped(p, log))
            && (c.until.Some? ==> LastFailureAt(log).Some? && c.until.value == LastFailureAt(log).value + p.cooldown)
    ensures forall now :: Cooling(Run(Fresh(p), log), now) <==> CoolingAt(p, log, now)
  {
    if log != [] {
      var n := |log| - 1;
      var before, op := log[..n], log[n];
      RunRefinesHistory(p, before);
      if !EffectiveReset(p, before, op) {
        var s := SegmentStart(p, before);
        assert log[s..][..|log[s..]| - 1] == before[s..];
        assert log[s..][|log[s..]| - 1] == op;
      } else {
        assert log[|log|..] == [];
      }
    }
  }

  /** A backend with health disabled never leaves its initial state. */
  lemma {:induction false} DisabledNeverTrips(p: Policy, log: seq<Op>)
    requires !p.enabled
    ensures Run(Fresh(p), log) == Fresh(p)
  {
    if log != [] {
      DisabledNeverTrips(p, log[..|log| - 1]);
    }
  }

  // ---- Cooldown in a nondecreasing clock ----

  ghost predicate Sorted(log: seq<Op>) {
    forall i, j | 0 <= i < j < |log| :: log[i].at <= log[j].at
  }

  lemma {:induction false} LastFailureIsLogged(log: seq<Op>)
    requires LastFailureAt(log).Some?
    ensures exists i :: 0 <= i < |log| && log[i] == Failure(LastFailureAt(log).value)
                        && forall j | i < j < |log| :: !log[j].Failure?
  {
    var n := |log| - 1;
    if log[n].Failure? {
      assert log[n] == Failure(LastFailureAt(log).value);
    } else {
      LastFailureIsLogged(log[..n]);
      var i :| 0 <= i < n && log[..n][i] == Failure(LastFailureAt(log).value)
               && forall j | i < j < n :: !log[..n][j].Failure?;
      assert log[i] == Failure(LastFailureAt(log).value);
      assert forall j | i < j < n :: log[j] == log[..n][j];
    }
  }

  lemma {:induction false} DeadlineHolds(c: Cell, log: seq<Op>, d: int)
    requires InStep(c) && c.until.Some? && c.until.value >= d
    requires forall op <- log :: d - c.policy.cooldown <= op.at < d
    ensures Run(c, log).until.Some? && Run(c, log).until.value >= d
  {
    if log != [] {
      var n := |log| - 1;
      DeadlineHolds(c, log[..n], d);
      RunKeepsInStep(c, log[..n]);
      assert log[n] in log;
    }
  }

  /** While every event is dated before the deadline, the deadline stays and only moves later. */
  lemma DeadlineNeverEarlier(p: Policy, before: seq<Op>, after: seq<Op>)
    requires p.threshold >= 1 && Sorted(before + after)
    requires Run(Fresh(p), before).until.Some?
    requires forall op <- after :: op.at < Run(Fresh(p), before).until.value
    ensures var c := Run(Fresh(p), before + after);
            c.until.Some? && c.until.value >= Run(Fresh(p), before).until.value
  {
    if !p.enabled {
      DisabledNeverTrips(p, before);
      assert false;
    }
    var c := Run(Fresh(p), before);
    RunRefinesHistory(p, before);
    RunKeepsInStep(Fresh(p), before);
    LastFailureIsLogged(before);
    var i :| 0 <= i < |before| && before[i] == Failure(LastFailureAt(before).value);
    forall op <- after ensures op.at >= c.until.value - p.cooldown {
      var j :| 0 <= j < |after| && after[j] == op;
      assert (before + after)[i] == before[i] && (before + after)[|before| + j] == op;
    }
    DeadlineHolds(c, after, c.until.value);
    RunConcat(Fresh(p), before, after);
  }

  /** No early recovery: nothing reported during a cooldown makes the backend available before its end. */
  lemma NoEarlyRecovery(p: Policy, before: seq<Op>, after: seq<Op>, now: int)
    requires p.threshold >= 1 && Sorted(before + after)
    requires Cooling(Run(Fresh(p), before), now)
    requires forall op <- after :: op.at <= now
    ensures Cooling(Run(Fresh(p), before + after), now)
  {
    DeadlineNeverEarlier(p, before, after);
  }

  /** Bounded cooldown: an unavailable backend has a failure less than one cooldown old. */
  lemma BoundedCooldown(p: Policy, log: seq<Op>, now: int)
    requires p.threshold >= 1 && Cooling(Run(Fresh(p), log), now)
    ensures exists i :: 0 <= i < |log| && log[i].Failure? && log[i].at + p.cooldown > now
  {
    if !p.enabled {
      DisabledNeverTrips(p, log);
      assert false;
    }
    RunRefinesHistory(p, log);
    LastFailureIsLogged(log);
  }

  lemma CountOne(log: seq<Op>, op: Op)
    ensures CountFailures(log + [op]) == CountFailures(log) + if op.Failure? then 1 else 0
  {
    assert (log + [op])[..|log|] == log;
  }

  /** Before a trip every success counts. */
  lemma NoResetKeepsTrip(p: Policy, before: seq<Op>, op: Op)
    requires !EffectiveReset(p, before, op)
    ensures op.Success? ==> Tripped(p, before)
  {}

  lemma TripStep(c: Cell, op: Op)
    requires InStep(c) && c.policy.enabled && c.until.None? && Apply(c, op).until.Some?
    ensures op.Failure? && c.failures + 1 == c.policy.threshold
    ensures Apply(c, op).until == Some(op.at + c.policy.cooldown)
  {}

  lemma {:induction false} UntrippedSegmentHasNoSuccess(p: Policy, log: seq<Op>)
    requires p.enabled && p.threshold >= 1 && !Tripped(p, log)
    ensures forall i | SegmentStart(p, log) <= i < |log| :: !log[i].Success?
  {
    if log != [] {
      var n := |log| - 1;
      var s := SegmentStart(p, log);
      if s <= n {
        NoResetKeepsTrip(p, log[..n], log[n]);
        assert log[s..][..|log[s..]| - 1] == log[..n][s..];
        assert !Tripped(p, log[..n]);
        UntrippedSegmentHasNoSuccess(p, log[..n]);
        assert forall i | s <= i < n :: log[i] == log[..n][i];
      }
    }
  }

  /** The first trip after a reset takes exactly `threshold` failures with no success between them. */
  lemma FirstTripTakesThreshold(p: Policy, before: seq<Op>, op: Op)
    requires p.enabled && p.threshold >= 1
    requires Run(Fresh(p), before).until.None? && Run(Fresh(p), before + [op]).until.Some?
    ensures op.Failure?
    ensures var s := SegmentStart(p, before);
            && CountFailures((before + [op])[s..]) == p.threshold
            && (forall i | s <= i < |before| :: !before[i].Success?)
    ensures Run(Fresh(p), before + [op]).until == Some(op.at + p.cooldown)
  {
    var s := SegmentStart(p, before);
    RunOne(Fresh(p), before, op);
    RunKeepsInStep(Fresh(p), before);
    TripStep(Run(Fresh(p), before), op);
    RunRefinesHistory(p, before);
    UntrippedSegmentHasNoSuccess(p, before);
    SegmentGrows(p, before, op);
  }

  lemma SegmentGrows(p: Policy, before: seq<Op>, op: Op)
    ensures var s := SegmentStart(p, before);
            CountFailures((before + [op])[s..]) == FailuresSinceReset(p, before) + if op.Failure? then 1 else 0
  {
    var s := SegmentStart(p, before);
    CountOne(before[s..], op);
    assert (before + [op])[s..] == before[s..] + [op];
  }

  // ---- Scrapes ----

  function EraseScrapes(log: seq<Op>): seq<Op> {
    if log == [] then []
    else
      var n := |log| - 1;
      EraseScrapes(log[..n]) + if log[n].Scrape? then [] else [log[n]]
  }

  /** What a run with scrapes (`w`) keeps against the run without them (`n`). */
  predicate ScrapeSimulates(w: Cell, n: Cell) {
    && w.policy == n.policy
    && w.failures <= n.failures
    && (w.until.Some? ==> w.until == n.until)
  }

  lemma StepSimulates(w: Cell, n: Cell, op: Op)
    requires InStep(w) && InStep(n) && ScrapeSimulates(w, n)
    ensures ScrapeSimulates(Apply(w, op), if op.Scrape? then n else Apply(n, op))
  {}

  /** Erasing every scrape is a simulation, whatever the clock does. */
  lemma {:induction false} ErasureSimulates(c: Cell, log: seq<Op>)
    requires InStep(c)
    ensures ScrapeSimulates(Run(c, log), Run(c, EraseScrapes(log)))
  {
    if log != [] {
      var n := |log| - 1;
      ErasureSimulates(c, log[..n]);
      RunKeepsInStep(c, log[..n]);
      var erased := EraseScrapes(log[..n]);
      RunKeepsInStep(c, erased);
      StepSimulates(Run(c, log[..n]), Run(c, erased), log[n]);
      if log[n].Scrape? {
        assert EraseScrapes(log) == erased;
      } else {
        assert EraseScrapes(log) == erased + [log[n]];
        RunOne(c, erased, log[n]);
      }
    }
  }

  /** A scrape never causes a trip: unavailable with the scrapes, unavailable without them. */
  lemma ScrapesOnlyPostpone(c: Cell, log: seq<Op>, now: int)
    requires InStep(c) && Cooling(Run(c, log), now)
    ensures Cooling(Run(c, EraseScrapes(log)), now)
  {
    ErasureSimulates(c, log);
  }

  /** Erasing a single scrape is a simulation too when no scrape comes after it. */
  lemma LastScrapeOnlyPostpones(c: Cell, before: seq<Op>, t: int, after: seq<Op>)
    requires InStep(c) && forall op <- after :: !op.Scrape?
    ensures ScrapeSimulates(Run(c, before + [Scrape(t)] + after), Run(c, before + after))
  {
    RunConcat(c, before + [Scrape(t)], after);
    RunConcat(c, before, after);
    RunOne(c, before, Scrape(t));
    RunKeepsInStep(c, before);
    var n := Run(c, before);
    SimulationRuns(Apply(n, Scrape(t)), n, after);
  }

  lemma {:induction false} SimulationRuns(w: Cell, n: Cell, log: seq<Op>)
    requires InStep(w) && InStep(n) && ScrapeSimulates(w, n) && forall op <- log :: !op.Scrape?
    ensures ScrapeSimulates(Run(w, log), Run(n, log))
  {
    if log != [] {
      var k := |log| - 1;
      SimulationRuns(w, n, log[..k]);
      RunKeepsInStep(w, log[..k]);
      RunKeepsInStep(n, log[..k]);
      StepSimulates(Run(w, log[..k]), Run(n, log[..k]), log[k]);
    }
  }

  const TWO_STRIKES := Policy(true, 2, 10)

  lemma EraseOne(log: seq<Op>, op: Op)
    ensures EraseScrapes(log + [op]) == EraseScrapes(log) + if op.Scrape? then [] else [op]
  {
    assert (log + [op])[..|log|] == log;
  }

  /** The converse fails: a scrape after expiry can keep a backend in rotation that a run without it trips. */
  lemma ScrapesCanPostpone()
    ensures var log := [Failure(0), Failure(1), Scrape(12), Failure(12)];
            && !Cooling(Run(Fresh(TWO_STRIKES), log), 12)
            && Cooling(Run(Fresh(TWO_STRIKES), EraseScrapes(log)), 12)
  {
    var c := Fresh(TWO_STRIKES);
    var f0: seq<Op> := [];
    var f1 := f0 + [Failure(0)];
    var f2 := f1 + [Failure(1)];
    var s := f2 + [Scrape(12)];
    RunOne(c, f0, Failure(0));
    RunOne(c, f1, Failure(1));
    RunOne(c, f2, Scrape(12));
    RunOne(c, s, Failure(12));
    EraseOne(f0, Failure(0));
    EraseOne(f1, Failure(1));
    EraseOne(f2, Scrape(12));
    EraseOne(s, Failure(12));
    RunOne(c, f2, Failure(12));
    assert s + [Failure(12)] == [Failure(0), Failure(1), Scrape(12), Failure(12)];
  }

  /**
    Erasing only SOME scrapes is not a simulation: adding one scrape to this
    run makes the backend unavailable where the run without it is available.
   */
  lemma OneMoreScrapeCanTrip()
    ensures var fewer := [Failure(0), Failure(1), Failure(12), Scrape(23), Failure(24)];
            var more := [Failure(0), Failure(1), Scrape(12), Failure(12), Scrape(23), Failure(24)];
            && Sorted(more) && !Cooling(Run(Fresh(TWO_STRIKES), fewer), 24)
            && Cooling(Run(Fresh(TWO_STRIKES), more), 24)
  {
    var c := Fresh(TWO_STRIKES);
    var f0: seq<Op> := [];
    var f1 := f0 + [Failure(0)];
    var f2 := f1 + [Failure(1)];
    RunOne(c, f0, Failure(0));
    RunOne(c, f1, Failure(1));
    var spared := f2 + [Failure(12)];
    RunOne(c, f2, Failure(12));
    RunOne(c, spared, Scrape(23));
    RunOne(c, spared + [Scrape(23)], Failure(24));
    assert spared + [Scrape(23)] + [Failure(24)] == [Failure(0), Failure(1), Failure(12), Scrape(23), Failure(24)];
    var cleared := f2 + [Scrape(12)];
    RunOne(c, f2, Scrape(12));
    RunOne(c, cleared, Failure(12));
    RunOne(c, cleared + [Failure(12)], Scrape(23));
    RunOne(c, cleared + [Failure(12)] + [Scrape(23)], Failure(24));
    assert cleared + [Failure(12)] + [Scrape(23)] + [Failure(24)]
        == [Failure(0), Failure(1), Scrape(12), Failure(12), Scrape(23), Failure(24)];
  }

  // ---- One scrape, exactly ----

  /** What can follow a scrape at `t`, and when one may ask: in clock order, from `t` on. */
  ghost predicate Continues(t: int, after: seq<Op>, now: int) {
    Sorted(after) && t <= now && forall op <- after :: t <= op.at <= now
  }

  /** The scrape at `t` never makes the backend unavailable later where it would have been available without it. */
  ghost predicate NeverTrips(c: Cell, t: int) {
    forall after, now | Continues(t, after, now) && Cooling(Run(Apply(c, Scrape(t)), after), now) ::
      Cooling(Run(c, after), now)
  }

  /** The scrape at `t` never makes the backend available later where it would have been unavailable without it. */
  ghost predicate NeverPostpones(c: Cell, t: int) {
    forall after, now | Continues(t, after, now) && Cooling(Run(c, after), now) ::
      Cooling(Run(Apply(c, Scrape(t)), after), now)
  }

  /** The scrape finds no expired deadline, or nothing could depend on the counter it clears. */
  predicate Inert(c: Cell, t: int) {
    !(c.until.Some? && c.until.value <= t) || c.policy.threshold == 1 || c.policy.cooldown <= 0
  }

  /**
    One scrape, wherever it falls in a run: it can cause an outage later if and
    only if it can prevent one later, if and only if it clears an expired
    deadline of a backend with threshold above 1 and a positive cooldown.
   */
  lemma OneScrapeMatters(p: Policy, before: seq<Op>, t: int)
    requires p.threshold >= 1
    ensures var c := Run(Fresh(p), before);
            && (NeverTrips(c, t) <==> Inert(c, t))
            && (NeverPostpones(c, t) <==> Inert(c, t))
  {
    var c := Run(Fresh(p), before);
    RunKeepsInStep(Fresh(p), before);
    if Inert(c, t) {
      forall after, now | Continues(t, after, now)
        ensures Cooling(Run(Apply(c, Scrape(t)), after), now) <==> Cooling(Run(c, after), now)
      {
        InertIsInvisible(c, t, after, now);
      }
    } else {
      ScrapeThenTrip(c, t);
      ScrapeThenSpared(c, t);
    }
  }

  /** At threshold 1 the counter plays no part. */
  predicate SameOutlook(w: Cell, n: Cell, at: int) {
    w.policy == n.policy && (w.until == n.until || (w.until.None? && n.until.Some? && n.until.value <= at))
  }

  lemma InertIsInvisible(c: Cell, t: int, after: seq<Op>, now: int)
    requires InStep(c) && Inert(c, t) && Continues(t, after, now)
    ensures Cooling(Run(Apply(c, Scrape(t)), after), now) <==> Cooling(Run(c, after), now)
  {
    if c.until.Some? && c.until.value <= t {
      if c.policy.cooldown <= 0 {
        NoCooldownNeverCools(c, after, now);
        NoCooldownNeverCools(Apply(c, Scrape(t)), after, now);
      } else {
        OutlookRuns(Apply(c, Scrape(t)), c, t, after, now);
      }
    }
  }

  lemma {:induction false} NoCooldownNeverCools(c: Cell, log: seq<Op>, now: int)
    requires c.policy.cooldown <= 0 && !Cooling(c, now) && forall op <- log :: op.at <= now
    ensures !Cooling(Run(c, log), now)
  {
    if log != [] {
      NoCooldownNeverCools(c, log[..|log| - 1], now);
    }
  }

  lemma {:induction false} OutlookRuns(w: Cell, n: Cell, t: int, log: seq<Op>, now: int)
    requires InStep(w) && InStep(n) && SameOutlook(w, n, t) && n.policy.threshold == 1 && n.policy.enabled
    requires forall op <- log :: t <= op.at <= now
    ensures SameOutlook(Run(w, log), Run(n, log), t)
  {
    if log != [] {
      var k := |log| - 1;
      OutlookRuns(w, n, t, log[..k], now);
      assert log[k] in log;
    }
  }

  function Repeat(op: Op, times: nat): seq<Op> {
    if times == 0 then [] else Repeat(op, times - 1) + [op]
  }

  /** Failures in a row, from an untripped state, up to the threshold. */
  lemma {:induction false} FailuresAddUp(c: Cell, at: int, times: nat)
    requires InStep(c) && c.policy.enabled && c.until.None? && c.failures + times <= c.policy.threshold
    ensures var r := Run(c, Repeat(Failure(at), times));
            && r.failures == c.failures + times
            && r.until == if times > 0 && r.failures == c.policy.threshold then Some(at + c.policy.cooldown) else None
  {
    if times > 0 {
      FailuresAddUp(c, at, times - 1);
      assert Repeat(Failure(at), times)[..|Repeat(Failure(at), times)| - 1] == Repeat(Failure(at), times - 1);
    }
  }

  lemma {:induction false} RepeatMembers(op: Op, times: nat)
    ensures forall o <- Repeat(op, times) :: o == op
  {
    if times > 0 {
      RepeatMembers(op, times - 1);
    }
  }

  /** The failure right after an expired deadline trips again, unless a scrape cleared the counter first. */
  lemma ScrapeThenSpared(c: Cell, t: int)
    requires InStep(c) && !Inert(c, t)
    ensures !NeverPostpones(c, t)
  {
    var after: seq<Op> := [Failure(t)];
    var w := Apply(c, Scrape(t));
    assert after == [] + [Failure(t)];
    RunOne(c, [], Failure(t));
    RunOne(w, [], Failure(t));
    assert Continues(t, after, t) && Cooling(Run(c, after), t) && !Cooling(Run(w, after), t);
  }

  /** One failure, a scrape one cooldown later, and then one failure less than it takes to trip from nothing. */
  function Provocation(c: Cell, t: int): seq<Op>
    requires c.policy.threshold >= 1
  {
    var later := t + c.policy.cooldown;
    [Failure(t), Scrape(later)] + Repeat(Failure(later), c.policy.threshold - 1)
  }

  lemma ProvocationRuns(c: Cell, t: int, start: Cell, two: Cell)
    requires InStep(two) && two.policy == c.policy && c.policy.enabled && two.until.None? && two.failures <= 1
    requires two == Apply(Apply(start, Failure(t)), Scrape(t + c.policy.cooldown))
    ensures Run(start, Provocation(c, t)).until ==
            if two.failures == 1 then Some(t + c.policy.cooldown + c.policy.cooldown) else None
  {
    var later := t + c.policy.cooldown;
    var times: nat := c.policy.threshold - 1;
    FailuresAddUp(two, later, times);
    TwoSteps(start, Failure(t), Scrape(later), Repeat(Failure(later), times));
  }

  /**
    The other way round: without the scrape the first failure trips, that trip's
    own expiry clears the counter, and only then do failures arrive in numbers.
   */
  lemma ScrapeThenTrip(c: Cell, t: int)
    requires InStep(c) && !Inert(c, t)
    ensures !NeverTrips(c, t)
  {
    var later := t + c.policy.cooldown;
    ProvocationRuns(c, t, c, Fresh(c.policy));
    ProvocationRuns(c, t, Fresh(c.policy), Fresh(c.policy).(failures := 1));
    TripContinues(t, later, c.policy.threshold - 1);
    assert Continues(t, Provocation(c, t), later);
  }

  lemma TripContinues(t: int, later: int, times: nat)
    requires t <= later
    ensures Continues(t, [Failure(t), Scrape(later)] + Repeat(Failure(later), times), later)
  {
    var many := Repeat(Failure(later), times);
    var after := [Failure(t), Scrape(later)] + many;
    RepeatMembers(Failure(later), times);
    forall i | 1 <= i < |after| ensures after[i].at == later {
      if i >= 2 {
        assert after[i] == many[i - 2] && many[i - 2] in many;
      }
    }
  }

  lemma TwoSteps(c: Cell, a: Op, b: Op, rest: seq<Op>)
    ensures Run(c, [a, b] + rest) == Run(Apply(Apply(c, a), b), rest)
  {
    var empty: seq<Op> := [];
    assert [a, b] == empty + [a] + [b];
    RunOne(c, empty, a);
    RunOne(c, empty + [a], b);
    RunConcat(c, [a, b], rest);
  }

  // ---- Expiry ----

  /** Past the deadline the first success or scrape clears everything, and further ones change nothing. */
  lemma {:induction false} QuietClears(c: Cell, quiet: seq<Op>)
    requires c.policy.enabled && c.until.Some?
    requires forall op <- quiet :: !op.Failure? && op.at >= c.until.value
    ensures Run(c, quiet) == if quiet == [] then c else Fresh(c.policy)
  {
    if quiet != [] {
      QuietClears(c, quiet[..|quiet| - 1]);
      assert quiet[|quiet| - 1] in quiet;
    }
  }

  /**
    Expiry by time alone does not clear the counter: the next failure re-trips
    the backend at once if and only if no success or scrape came in between, or
    the threshold is 1.
   */
  lemma ExpiryKeepsTheCounter(p: Policy, log: seq<Op>, quiet: seq<Op>, now: int)
    requires p.enabled && p.threshold >= 1 && Run(Fresh(p), log).until.Some?
    requires forall op <- quiet :: !op.Failure? && op.at >= Run(Fresh(p), log).until.value
    ensures Run(Fresh(p), log + quiet + [Failure(now)]).until ==
            if quiet == [] || p.threshold == 1 then Some(now + p.cooldown) else None
  {
    RunKeepsInStep(Fresh(p), log);
    QuietClears(Run(Fresh(p), log), quiet);
    RunConcat(Fresh(p), log, quiet);
    RunOne(Fresh(p), log + quiet, Failure(now));
  }

  // ---- All backends together ----

  datatype Event = Succeeded(id: string, at: int) | Failed(id: string, at: int) | Scraped(at: int)

  type Model = map<string, Cell>

  function ApplyAll(m: Model, e: Event): (r: Model)
    ensures r.Keys == m.Keys
  {
    match e
    case Succeeded(id, now) => if id in m then m[id := Apply(m[id], Success(now))] else m
    case Failed(id, now) => if id in m then m[id := Apply(m[id], Failure(now))] else m
    case Scraped(now) => map id | id in m :: Apply(m[id], Scrape(now))
  }

  function RunAll(m: Model, log: seq<Event>): (r: Model)
    ensures r.Keys == m.Keys
  {
    if log == [] then m else ApplyAll(RunAll(m, log[..|log| - 1]), log[|log| - 1])
  }

  lemma RunAllOne(m: Model, log: seq<Event>, e: Event)
    ensures RunAll(m, log + [e]) == ApplyAll(RunAll(m, log), e)
  {
    assert (log + [e])[..|log + [e]| - 1] == log;
  }

  lemma {:induction false} RunAllConcat(m: Model, a: seq<Event>, b: seq<Event>)
    ensures RunAll(m, a + b) == RunAll(RunAll(m, a), b)
  {
    if b == [] {
      assert a + b == a;
    } else {
      assert (a + b)[..|a + b| - 1] == a + b[..|b| - 1];
      RunAllConcat(m, a, b[..|b| - 1]);
    }
  }

  /** The events that concern one backend: its own reports and every scrape. */
  function ProjectOne(e: Event, id: string): seq<Op> {
    match e
    case Succeeded(other, now) => if other == id then [Success(now)] else []
    case Failed(other, now) => if other == id then [Failure(now)] else []
    case Scraped(now) => [Scrape(now)]
  }

  function Project(log: seq<Event>, id: string): seq<Op> {
    if log == [] then [] else Project(log[..|log| - 1], id) + ProjectOne(log[|log| - 1], id)
  }

  lemma ProjectOneMore(log: seq<Event>, e: Event, id: string)
    ensures Project(log + [e], id) == Project(log, id) + ProjectOne(e, id)
  {
    assert (log + [e])[..|log|] == log;
  }

  /** In any interleaved run, a backend's state depends only on its own projection. */
  lemma {:induction false} RunAllProjects(m: Model, log: seq<Event>, id: string)
    requires id in m
    ensures RunAll(m, log)[id] == Run(m[id], Project(log, id))
  {
    if log != [] {
      var n := |log| - 1;
      RunAllProjects(m, log[..n], id);
      var ops := ProjectOne(log[n], id);
      if ops == [] {
        assert Project(log, id) == Project(log[..n], id);
      } else {
        RunOne(m[id], Project(log[..n], id), ops[0]);
      }
    }
  }

  /** Reports on different backends commute. */
  lemma ReportsCommute(m: Model, e: Event, f: Event)
    requires !e.Scraped? && !f.Scraped? && e.id != f.id
    ensures ApplyAll(ApplyAll(m, e), f) == ApplyAll(ApplyAll(m, f), e)
  {}

  /** So the order in which different backends' reports interleave never matters, over whole runs. */
  lemma InterleavingsAgree(m: Model, a: seq<Event>, b: seq<Event>)
    requires forall id <- m :: Project(a, id) == Project(b, id)
    ensures RunAll(m, a) == RunAll(m, b)
  {
    forall id <- m ensures RunAll(m, a)[id] == RunAll(m, b)[id] {
      RunAllProjects(m, a, id);
      RunAllProjects(m, b, id);
    }
  }

  function InitialCells(policies: map<string, Policy>): Model {
    map id | id in policies :: Fresh(policies[id])
  }

  /** Available(id) at `now`, as the selector sees it. */
  predicate Available(m: Model, id: string, now: int) {
    id in m && !Cooling(m[id], now)
  }

  /** The whole manager, from its event log: unknown ids are unavailable, disabled backends never cool. */
  lemma AvailabilityFromHistory(policies: map<string, Policy>, log: seq<Event>, id: string, now: int)
    requires forall k <- policies :: policies[k].threshold >= 1
    ensures Available(RunAll(InitialCells(policies), log), id, now) <==>
            id in policies && !(policies[id].enabled && CoolingAt(policies[id], Project(log, id), now))
  {
    if id in policies {
      RunAllProjects(InitialCells(policies), log, id);
      if policies[id].enabled {
        RunRefinesHistory(policies[id], Project(log, id));
      } else {
        DisabledNeverTrips(policies[id], Project(log, id));
      }
    }
  }

  function WithoutScrapes(log: seq<Event>): seq<Event> {
    if log == [] then []
    else
      var n := |log| - 1;
      WithoutScrapes(log[..n]) + if log[n].Scraped? then [] else [log[n]]
  }

  lemma {:induction false} ErasureProjects(log: seq<Event>, id: string)
    ensures Project(WithoutScrapes(log), id) == EraseScrapes(Project(log, id))
  {
    if log != [] {
      var n := |log| - 1;
      ErasureProjects(log[..n], id);
      var kept, ops := WithoutScrapes(log[..n]), ProjectOne(log[n], id);
      if log[n].Scraped? {
        assert WithoutScrapes(log) == kept;
      } else {
        assert WithoutScrapes(log)[..|kept|] == kept;
      }
      if ops == [] {
        assert Project(log, id) == Project(log[..n], id);
      } else {
        assert Project(log, id)[..|Project(log[..n], id)|] == Project(log[..n], id);
      }
    }
  }

  /** Over the whole manager: every backend in rotation without the scrapes is in rotation with them. */
  lemma ManagerErasure(policies: map<string, Policy>, log: seq<Event>, id: string, now: int)
    requires forall k <- policies :: policies[k].threshold >= 1
    requires Available(RunAll(InitialCells(policies), WithoutScrapes(log)), id, now)
    ensures Available(RunAll(InitialCells(policies), log), id, now)
  {
    var m := InitialCells(policies);
    RunAllProjects(m, log, id);
    RunAllProjects(m, WithoutScrapes(log), id);
    ErasureProjects(log, id);
    ErasureSimulates(m[id], Project(log, id));
  }
}
