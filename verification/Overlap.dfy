/**
  Attempts whose answer is a 2xx without a usable session id, running side by
  side. Each reports a success and later, separately, a failure.
 */
module Overlap {
  import opened Wrappers
  import opened HealthSpec

  /** What the backend's health sees: the two reports of each attempt, and anything else that is not a failure. */
  datatype Sighting = Accepted(attempt: nat, at: int) | Unusable(attempt: nat, at: int) | Other(op: Op)

  /** The sightings so far, oldest first. */
  datatype History = Nothing | Then(before: History, last: Sighting)

  function OpOf(x: Sighting): Op {
    match x
    case Accepted(_, at) => Success(at)
    case Unusable(_, at) => Failure(at)
    case Other(op) => op
  }

  function OpsOf(h: History): seq<Op> {
    match h
    case Nothing => []
    case Then(before, x) => OpsOf(before) + [OpOf(x)]
  }

  function Begun(h: History): set<nat> {
    match h
    case Nothing => {}
    case Then(before, x) => Begun(before) + if x.Accepted? then {x.attempt} else {}
  }

  /** The attempts between their two reports. */
  function Open(h: History): set<nat> {
    match h
    case Nothing => {}
    case Then(before, Accepted(a, _)) => Open(before) + {a}
    case Then(before, Unusable(a, _)) => Open(before) - {a}
    case Then(before, Other(_)) => Open(before)
  }

  /** Any interleaving with at most `k` attempts at a time between their two reports. */
  predicate Merge(h: History, k: nat) {
    match h
    case Nothing => true
    case Then(before, Accepted(a, _)) => Merge(before, k) && a !in Begun(before) && |Open(before)| < k
    case Then(before, Unusable(a, _)) => Merge(before, k) && a in Open(before)
    case Then(before, Other(op)) => Merge(before, k) && !op.Failure?
  }

  function After(p: Policy, h: History): Cell {
    Run(Fresh(p), OpsOf(h))
  }

  lemma AfterOne(p: Policy, before: History, x: Sighting)
    ensures After(p, Then(before, x)) == Apply(After(p, before), OpOf(x))
  {
    RunOne(Fresh(p), OpsOf(before), OpOf(x));
  }

  /** Failures and open attempts together never exceed the overlap, whatever the clock does. */
  lemma {:induction false} FailuresBoundedByOverlap(p: Policy, h: History, k: nat)
    requires p.enabled && k < p.threshold && Merge(h, k)
    ensures After(p, h).until.None? && After(p, h).failures + |Open(h)| <= k && After(p, h).policy == p
  {
    match h
    case Nothing =>
    case Then(before, x) =>
      FailuresBoundedByOverlap(p, before, k);
      AfterOne(p, before, x);
      if x.Unusable? {
        assert Open(before) == Open(h) + {x.attempt};
      }
  }

  // ---- A merge that trips ----

  /** `n` attempts are accepted at one instant. */
  function Accepts(n: nat, at: int): History {
    if n == 0 then Nothing else Then(Accepts(n - 1, at), Accepted(n - 1, at))
  }

  /** Then the first `m` of them turn out unusable. */
  function Wave(n: nat, m: nat, at: int): History {
    if m == 0 then Accepts(n, at) else Then(Wave(n, m - 1, at), Unusable(m - 1, at))
  }

  lemma {:induction false} AcceptsOpen(n: nat, at: int)
    ensures Begun(Accepts(n, at)) == Open(Accepts(n, at)) && |Open(Accepts(n, at))| == n
    ensures forall a: nat :: a in Open(Accepts(n, at)) <==> a < n
  {
    if n > 0 {
      AcceptsOpen(n - 1, at);
    }
  }

  lemma {:induction false} AcceptsMerge(n: nat, at: int, k: nat)
    requires n <= k
    ensures Merge(Accepts(n, at), k)
    ensures forall a: nat :: a in Open(Accepts(n, at)) <==> a < n
  {
    AcceptsOpen(n, at);
    if n > 0 {
      AcceptsOpen(n - 1, at);
      AcceptsMerge(n - 1, at, k);
    }
  }

  lemma {:induction false} WaveMerges(n: nat, m: nat, at: int, k: nat)
    requires m <= n <= k
    ensures Merge(Wave(n, m, at), k)
    ensures forall a: nat :: a in Open(Wave(n, m, at)) <==> m <= a < n
  {
    if m > 0 {
      WaveMerges(n, m - 1, at, k);
    } else {
      AcceptsMerge(n, at, k);
    }
  }

  lemma {:induction false} AcceptsChangeNothing(p: Policy, n: nat, at: int)
    ensures After(p, Accepts(n, at)) == Fresh(p)
    ensures forall op <- OpsOf(Accepts(n, at)) :: op.at == at
  {
    if n > 0 {
      AcceptsChangeNothing(p, n - 1, at);
      AfterOne(p, Accepts(n - 1, at), Accepted(n - 1, at));
    }
  }

  lemma {:induction false} WaveFailures(p: Policy, n: nat, m: nat, at: int)
    requires p.enabled && m <= p.threshold && p.threshold >= 1
    ensures After(p, Wave(n, m, at)) == Cell(p, m, if m == p.threshold then Some(at + p.cooldown) else None)
    ensures forall op <- OpsOf(Wave(n, m, at)) :: op.at == at
  {
    if m > 0 {
      WaveFailures(p, n, m - 1, at);
      AfterOne(p, Wave(n, m - 1, at), Unusable(m - 1, at));
    } else {
      AcceptsChangeNothing(p, n, at);
    }
  }

  /** All attempts finished, in clock order up to `now`. */
  ghost predicate Finished(h: History, now: int) {
    Open(h) == {} && Sorted(OpsOf(h)) && forall op <- OpsOf(h) :: op.at <= now
  }

  /**
    Unusable 2xx answers alone take the backend out of rotation in some
    interleaving if and only if as many attempts may overlap as it takes
    failures to trip.
   */
  lemma UnusableTripsByOverlap(p: Policy, k: nat)
    requires p.enabled && p.threshold >= 1
    ensures (exists h, now :: Merge(h, k) && Finished(h, now) && Cooling(After(p, h), now))
            <==> k >= p.threshold && p.cooldown > 0
  {
    forall h, now | Merge(h, k) && Finished(h, now) && Cooling(After(p, h), now)
      ensures k >= p.threshold && p.cooldown > 0
    {
      if k < p.threshold {
        FailuresBoundedByOverlap(p, h, k);
      } else if p.cooldown <= 0 {
        NoCooldownNeverCools(Fresh(p), OpsOf(h), now);
      }
    }
    if k >= p.threshold && p.cooldown > 0 {
      var h := Wave(p.threshold, p.threshold, 0);
      WaveMerges(p.threshold, p.threshold, 0, k);
      WaveFailures(p, p.threshold, p.threshold, 0);
      assert Finished(h, 0) && Cooling(After(p, h), 0);
    }
  }
}
