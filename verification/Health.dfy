/** The passive health manager: one mutable state object per backend, updated under one lock. */
module Health {
  import opened Wrappers
  import opened Config
  import opened HealthSpec
  import opened Iteration

  const DEFAULT_COOLDOWN := 30_000_000_000

  function PolicyOf(lib: Library, pool: BackendPool): (p: Policy)
    ensures p.threshold >= 1
  {
    var configured := pool.health.failureThreshold;
    var parsed := if pool.health.cooldown == "" then None else lib.parseDuration(pool.health.cooldown);
    Policy(
      pool.health.enabled,
      if configured <= 0 then 1 else configured,
      if parsed.Some? then parsed.value else DEFAULT_COOLDOWN)
  }

  /** The policy of each configured backend; a repeated id keeps its last entry. */
  function Policies(lib: Library, pools: seq<BackendPool>): (m: map<string, Policy>)
    ensures m.Keys == set p <- pools :: p.id
    ensures forall id <- m :: m[id].threshold >= 1
  {
    if pools == [] then map[]
    else
      var n := |pools| - 1;
      assert pools == pools[..n] + [pools[n]];
      Policies(lib, pools[..n])[pools[n].id := PolicyOf(lib, pools[n])]
  }

  /** With distinct ids every pool is governed by its own policy. */
  lemma {:induction false} PolicyOfPool(lib: Library, pools: seq<BackendPool>, i: nat)
    requires DistinctIds(pools) && i < |pools|
    ensures pools[i].id in Policies(lib, pools)
    ensures Policies(lib, pools)[pools[i].id] == PolicyOf(lib, pools[i])
  {
    var n := |pools| - 1;
    if i < n {
      PolicyOfPool(lib, pools[..n], i);
      assert pools[i].id != pools[n].id;
    }
  }

  /** The pool that configures each backend; a repeated id keeps its last entry. */
  function ById(pools: seq<BackendPool>): map<string, BackendPool> {
    if pools == [] then map[]
    else
      var n := |pools| - 1;
      ById(pools[..n])[pools[n].id := pools[n]]
  }

  lemma {:induction false} PoliciesById(lib: Library, pools: seq<BackendPool>)
    ensures Policies(lib, pools).Keys == ById(pools).Keys
    ensures forall id <- ById(pools) :: Policies(lib, pools)[id] == PolicyOf(lib, ById(pools)[id])
  {
    if pools != [] {
      PoliciesById(lib, pools[..|pools| - 1]);
    }
  }

  lemma {:induction false} ByIdOfPool(pools: seq<BackendPool>, i: nat)
    requires DistinctIds(pools) && i < |pools|
    ensures pools[i].id in ById(pools) && ById(pools)[pools[i].id] == pools[i]
  {
    var n := |pools| - 1;
    if i < n {
      ByIdOfPool(pools[..n], i);
      assert pools[i].id != pools[n].id;
    }
  }

  class BackendState {
    const id: string
    const region: string
    const endpoint: string
    const protocols: seq<Protocol>
    const enabled: bool
    const failureThreshold: nat
    const cooldown: int
    var failures: nat
    var unhealthyUntil: Option<int>

    constructor (pool: BackendPool, policy: Policy)
      ensures Describes(pool) && Value() == Fresh(policy)
    {
      id, region, endpoint, protocols := pool.id, pool.region, pool.endpoint, pool.protocols;
      enabled, failureThreshold, cooldown := policy.enabled, policy.threshold, policy.cooldown;
      failures, unhealthyUntil := 0, None;
    }

    /** The state stands for this pool. */
    predicate Describes(pool: BackendPool) {
      id == pool.id && region == pool.region && endpoint == pool.endpoint && protocols == pool.protocols
    }

    /** Just built for this pool. */
    ghost predicate Starts(lib: Library, pool: BackendPool)
      reads this
    {
      Describes(pool) && Value() == Fresh(PolicyOf(lib, pool))
    }

    function Value(): Cell
      reads this
    {
      Cell(Policy(enabled, failureThreshold, cooldown), failures, unhealthyUntil)
    }

    method Succeed(now: int)
      modifies this
      ensures Value() == Apply(old(Value()), Success(now))
    {
      if enabled && !(unhealthyUntil.Some? && unhealthyUntil.value > now) {
        failures := 0;
        unhealthyUntil := None;
      }
    }

    method Fail(now: int)
      modifies this
      ensures Value() == Apply(old(Value()), Failure(now))
    {
      if enabled {
        failures := failures + 1;
        if failures >= failureThreshold {
          unhealthyUntil := Some(now + cooldown);
        }
      }
    }

    predicate AvailableAt(now: int)
      reads this
    {
      unhealthyUntil.None? || !(unhealthyUntil.value > now)
    }
  }

  /** One state object per backend. */
  method BuildStates(lib: Library, pools: seq<BackendPool>) returns (m: map<string, BackendState>)
    ensures m.Keys == ById(pools).Keys == Policies(lib, pools).Keys && fresh(m.Values)
    ensures forall id <- m :: m[id].id == id && m[id].Describes(ById(pools)[id])
    ensures forall id <- m :: m[id].Value() == Fresh(Policies(lib, pools)[id])
  {
    m := map[];
    for i := 0 to |pools|
      invariant m.Keys == ById(pools[..i]).Keys
      invariant forall id <- m :: fresh(m[id]) && m[id].id == id && m[id].Starts(lib, ById(pools[..i])[id])
    {
      assert pools[..i + 1][..i] == pools[..i] && pools[..i + 1][i] == pools[i];
      var state := new BackendState(pools[i], PolicyOf(lib, pools[i]));
      m := m[pools[i].id := state];
    }
    assert pools[..|pools|] == pools;
    PoliciesById(lib, pools);
  }

  lemma NothingHappened(policies: map<string, Policy>)
    ensures RunAll(InitialCells(policies), []) == InitialCells(policies)
  {}

  datatype BackendSnapshot = BackendSnapshot(
    id: string, region: string, endpoint: string, protocols: seq<Protocol>, healthEnabled: bool,
    available: bool, failures: nat, failureThreshold: nat, unhealthyUntil: Option<int>)

  datatype Status = StatusOk | StatusDegraded

  /** The row tells the state of one backend at `now`. */
  predicate RowTells(row: BackendSnapshot, c: Cell, now: int) {
    && row.available == !Cooling(c, now)
    && row.failures == c.failures
    && row.failureThreshold == c.policy.threshold
    && row.healthEnabled == c.policy.enabled
    && row.unhealthyUntil == (if Cooling(c, now) then c.until else None)
  }

  /** A row tells a cooldown only while it lasts, and the counter as it is. */
  lemma RowForms(row: BackendSnapshot, p: Policy, failures: nat, until: Option<int>, now: int)
    requires RowTells(row, Cell(p, failures, until), now)
    ensures row.available <==> until.None? || until.value <= now
    ensures row.failures == failures && row.failureThreshold == p.threshold && row.healthEnabled == p.enabled
    ensures row.unhealthyUntil == if row.available then None else until
  {}

  /** The row carries the backend's configured region, endpoint and protocols. */
  predicate RowNames(row: BackendSnapshot, state: BackendState) {
    row.id == state.id && row.region == state.region && row.endpoint == state.endpoint
    && row.protocols == state.protocols
  }

  predicate NamedInOrder(rows: seq<BackendSnapshot>, order: seq<BackendState>) {
    |rows| == |order| && forall j | 0 <= j < |rows| :: RowNames(rows[j], order[j])
  }

  /** One row per backend of the model, each telling that backend's state at `now`. */
  ghost predicate RowsReport(rows: seq<BackendSnapshot>, m: Model, now: int) {
    && (forall i | 0 <= i < |rows| :: rows[i].id in m && RowTells(rows[i], m[rows[i].id], now))
    && (forall id <- m :: exists i :: 0 <= i < |rows| && rows[i].id == id)
    && (forall i, j | 0 <= i < j < |rows| :: rows[i].id != rows[j].id)
  }

  lemma SomeRowUp(rows: seq<BackendSnapshot>, m: Model, now: int)
    requires RowsReport(rows, m, now)
    ensures (exists row <- rows :: row.available) <==> SomeUp(m, now)
  {
    if SomeUp(m, now) {
      var id :| id in m && HealthSpec.Available(m, id, now);
      var i :| 0 <= i < |rows| && rows[i].id == id;
      assert rows[i].available;
    }
  }

  /** At least one backend is in rotation. */
  ghost predicate SomeUp(m: Model, now: int) {
    exists id <- m :: HealthSpec.Available(m, id, now)
  }

  /** The backends of `ids` that are in rotation. */
  function Up(m: Model, ids: set<string>, now: int): set<string> {
    set id <- ids | HealthSpec.Available(m, id, now)
  }

  function CountUp(rows: seq<BackendSnapshot>): nat {
    if rows == [] then 0
    else CountUp(rows[..|rows| - 1]) + if rows[|rows| - 1].available then 1 else 0
  }

  lemma RowsReportAllButLast(rows: seq<BackendSnapshot>, m: Model, now: int)
    requires RowsReport(rows, m, now) && rows != []
    ensures RowsReport(rows[..|rows| - 1], m - {rows[|rows| - 1].id}, now)
  {
    var n := |rows| - 1;
    var rest := m - {rows[n].id};
    assert forall i | 0 <= i < n :: rows[i].id != rows[n].id;
    forall other <- rest ensures exists i :: 0 <= i < n && rows[..n][i].id == other {
      var i :| 0 <= i < |rows| && rows[i].id == other;
      assert rows[..n][i].id == other;
    }
  }

  lemma UpOneLess(m: Model, id: string, now: int)
    requires id in m
    ensures |Up(m, m.Keys, now)| == |Up(m - {id}, (m - {id}).Keys, now)| + if Cooling(m[id], now) then 0 else 1
    ensures |m| == |m - {id}| + 1
  {
    var rest := m - {id};
    assert m.Keys == rest.Keys + {id};
    assert Up(m, m.Keys, now) == Up(rest, rest.Keys, now) + if Cooling(m[id], now) then {} else {id};
  }

  lemma {:induction false} CountUpIsCardinality(rows: seq<BackendSnapshot>, m: Model, now: int)
    requires RowsReport(rows, m, now)
    ensures CountUp(rows) == |Up(m, m.Keys, now)| && |rows| == |m|
  {
    if rows == [] {
      assert m.Keys == {} && Up(m, m.Keys, now) == {};
    } else {
      var id := rows[|rows| - 1].id;
      RowsReportAllButLast(rows, m, now);
      CountUpIsCardinality(rows[..|rows| - 1], m - {id}, now);
      UpOneLess(m, id, now);
    }
  }

  lemma UpNonempty(m: Model, now: int)
    ensures |Up(m, m.Keys, now)| > 0 <==> SomeUp(m, now)
  {
    if id: string :| id in m && HealthSpec.Available(m, id, now) {
      assert id in Up(m, m.Keys, now);
    }
    if |Up(m, m.Keys, now)| > 0 {
      var id :| id in Up(m, m.Keys, now);
    }
  }

  method OverallStatus(rows: seq<BackendSnapshot>) returns (status: Status)
    ensures status == StatusOk <==> exists row <- rows :: row.available
  {
    if rows == [] {
      return StatusDegraded;
    }
    for i := 0 to |rows|
      invariant forall j | 0 <= j < i :: !rows[j].available
    {
      if rows[i].available {
        return StatusOk;
      }
    }
    return StatusDegraded;
  }

  class Manager {
    const backends: map<string, BackendState>
    ghost const policies: map<string, Policy>
    /** Everything reported to this manager, in lock order. */
    ghost var history: seq<Event>

    /** The backends' states as values. */
    ghost var cells: Model

    /** The objects hold exactly what the history says they should. */
    ghost predicate Valid()
      reads this, backends.Values
    {
      && (forall id <- policies :: policies[id].threshold >= 1)
      && Holds(cells)
      && cells == RunAll(InitialCells(policies), history)
    }

    ghost predicate Holds(m: Model)
      reads backends.Values
    {
      m.Keys == backends.Keys && forall id <- backends :: backends[id].id == id && backends[id].Value() == m[id]
    }

    constructor (lib: Library, pools: seq<BackendPool>)
      ensures Valid() && fresh(backends.Values)
      ensures policies == Policies(lib, pools) && history == [] && cells == InitialCells(policies)
      ensures backends.Keys == ById(pools).Keys && forall id <- backends :: backends[id].Describes(ById(pools)[id])
    {
      var m := BuildStates(lib, pools);
      NothingHappened(Policies(lib, pools));
      backends := m;
      policies := Policies(lib, pools);
      history := [];
      cells := InitialCells(Policies(lib, pools));
    }

    /** Availability is a function of the backend's own history and the clock. */
    method Available(backendId: string, now: int) returns (r: bool)
      requires Valid()
      ensures r == HealthSpec.Available(cells, backendId, now)
      ensures r <==> backendId in policies
                     && !(policies[backendId].enabled
                          && CoolingAt(policies[backendId], Project(history, backendId), now))
    {
      AvailabilityFromHistory(policies, history, backendId, now);
      if backendId !in backends {
        return false;
      }
      r := backends[backendId].AvailableAt(now);
    }

    ghost method Log(e: Event)
      requires cells == RunAll(InitialCells(policies), history)
      modifies this`cells, this`history
      ensures cells == ApplyAll(old(cells), e) && history == old(history) + [e]
      ensures cells == RunAll(InitialCells(policies), history)
    {
      RunAllOne(InitialCells(policies), history, e);
      cells := ApplyAll(cells, e);
      history := history + [e];
    }

    method ReportSuccess(backendId: string, now: int)
      requires Valid()
      modifies this, backends.Values
      ensures Valid() && cells == ApplyAll(old(cells), Succeeded(backendId, now))
      ensures history == old(history) + [Succeeded(backendId, now)]
    {
      Log(Succeeded(backendId, now));
      if backendId in backends {
        backends[backendId].Succeed(now);
      }
    }

    method ReportFailure(backendId: string, now: int)
      requires Valid()
      modifies this, backends.Values
      ensures Valid() && cells == ApplyAll(old(cells), Failed(backendId, now))
      ensures history == old(history) + [Failed(backendId, now)]
    {
      Log(Failed(backendId, now));
      if backendId in backends {
        backends[backendId].Fail(now);
      }
    }

    /** Clears every expired cooldown, then reports each backend once, in some order. */
    method Snapshot(now: int) returns (status: Status, rows: seq<BackendSnapshot>)
      requires Valid()
      modifies this, backends.Values
      ensures Valid() && cells == ApplyAll(old(cells), Scraped(now))
      ensures history == old(history) + [Scraped(now)]
      ensures RowsReport(rows, cells, now)
      ensures forall row <- rows :: row.id in backends && RowNames(row, backends[row.id])
      ensures status == StatusOk <==> SomeUp(cells, now)
    {
      rows := ScrapeEach(ApplyAll(cells, Scraped(now)), now);
      SomeRowUp(rows, ApplyAll(cells, Scraped(now)), now);
      status := OverallStatus(rows);
      Log(Scraped(now));
    }

    /** The body of `Snapshot`'s loop: clean up one expired cooldown, then describe the backend. */
    static method ScrapeOne(state: BackendState, ghost after: Cell, now: int) returns (row: BackendSnapshot)
      requires after == Apply(state.Value(), Scrape(now))
      modifies state
      ensures state.Value() == after
      ensures RowNames(row, state) && RowTells(row, after, now)
    {
      if state.unhealthyUntil.Some? && !(state.unhealthyUntil.value > now) {
        state.unhealthyUntil := None;
        state.failures := 0;
      }
      row := RowOf(state, now);
    }

    method ScrapeEach(ghost after: Model, now: int) returns (rows: seq<BackendSnapshot>)
      requires Holds(cells)
      requires after.Keys == cells.Keys && forall id <- after :: after[id] == Apply(cells[id], Scrape(now))
      modifies backends.Values
      ensures Holds(after)
      ensures RowsReport(rows, after, now)
      ensures forall row <- rows :: row.id in backends && RowNames(row, backends[row.id])
    {
      var order := IterationOrder(backends.Values);
      assert forall j | 0 <= j < |order| :: order[j].id in cells;
      rows := ScrapeInOrder(order, after, now);
      HoldsInOrder(order, after);
      RowsInOrder(rows, order, after, now);
      NamesInOrder(rows, order);
    }

    /** The loop: every object once. */
    static method ScrapeInOrder(order: seq<BackendState>, ghost after: Model, now: int)
      returns (rows: seq<BackendSnapshot>)
      requires forall i, j | 0 <= i < j < |order| :: order[i] != order[j]
      requires forall j | 0 <= j < |order| ::
                 order[j].id in after && after[order[j].id] == Apply(order[j].Value(), Scrape(now))
      modifies order
      ensures forall j | 0 <= j < |order| :: order[j].Value() == after[order[j].id]
      ensures NamedInOrder(rows, order)
      ensures forall j | 0 <= j < |order| :: RowTells(rows[j], after[order[j].id], now)
    {
      rows := [];
      for i := 0 to |order|
        invariant NamedInOrder(rows, order[..i])
        invariant forall j | 0 <= j < i :: order[j].Value() == after[order[j].id]
        invariant forall j | i <= j < |order| :: after[order[j].id] == Apply(order[j].Value(), Scrape(now))
        invariant forall j | 0 <= j < i :: RowTells(rows[j], after[order[j].id], now)
      {
        var row := ScrapeOne(order[i], after[order[i].id], now);
        assert NamedInOrder(rows + [row], order[..i + 1]);
        rows := rows + [row];
      }
      assert order[..|order|] == order;
    }

    lemma NamesInOrder(rows: seq<BackendSnapshot>, order: seq<BackendState>)
      requires forall id <- backends :: backends[id].id == id
      requires Enumerates(order, backends.Values) && NamedInOrder(rows, order)
      ensures forall row <- rows :: row.id in backends && RowNames(row, backends[row.id])
    {
      forall row <- rows ensures row.id in backends && RowNames(row, backends[row.id]) {
        var j :| 0 <= j < |rows| && rows[j] == row;
        assert order[j] in backends.Values;
      }
    }

    lemma HoldsInOrder(order: seq<BackendState>, m: Model)
      requires m.Keys == backends.Keys && forall id <- backends :: backends[id].id == id
      requires Enumerates(order, backends.Values)
      requires forall j | 0 <= j < |order| :: order[j].id in m && order[j].Value() == m[order[j].id]
      ensures Holds(m)
    {
      forall id <- backends ensures backends[id].Value() == m[id] {
        assert backends[id] in backends.Values;
        var j :| 0 <= j < |order| && order[j] == backends[id];
      }
    }

    /** Rows made in iteration order cover every backend once. */
    lemma RowsInOrder(rows: seq<BackendSnapshot>, order: seq<BackendState>, m: Model, now: int)
      requires m.Keys == backends.Keys && forall id <- backends :: backends[id].id == id
      requires Enumerates(order, backends.Values) && |rows| == |order|
      requires forall j | 0 <= j < |rows| :: rows[j].id == order[j].id && RowTells(rows[j], m[order[j].id], now)
      ensures RowsReport(rows, m, now)
    {
      forall id <- m ensures exists i :: 0 <= i < |rows| && rows[i].id == id {
        assert backends[id] in backends.Values;
        var i :| 0 <= i < |order| && order[i] == backends[id];
        assert rows[i].id == id;
      }
    }

    static function RowOf(state: BackendState, now: int): BackendSnapshot
      reads state
    {
      BackendSnapshot(
        state.id, state.region, state.endpoint, state.protocols, state.enabled,
        state.AvailableAt(now), state.failures, state.failureThreshold,
        if state.unhealthyUntil.Some? && state.unhealthyUntil.value > now then state.unhealthyUntil else None)
    }

    /** The unauthenticated roll-up: it counts, and unlike `Snapshot` it changes nothing. */
    method PublicSnapshot(now: int) returns (status: Status, backendCount: nat, availableCount: nat)
      requires Valid()
      ensures backendCount == |cells|
      ensures availableCount == |Up(cells, cells.Keys, now)|
      ensures status == StatusOk <==> availableCount > 0
    {
      var rows;
      rows, availableCount := CountEach(now);
      CountUpIsCardinality(rows, cells, now);
      backendCount := |rows|;
      SomeRowUp(rows, cells, now);
      UpNonempty(cells, now);
      status := OverallStatus(rows);
    }

    method CountEach(now: int) returns (rows: seq<BackendSnapshot>, availableCount: nat)
      requires Holds(cells)
      ensures RowsReport(rows, cells, now) && availableCount == CountUp(rows)
    {
      rows := [];
      availableCount := 0;
      var order := IterationOrder(backends.Values);
      assert forall j | 0 <= j < |order| :: order[j].id in cells;
      for i := 0 to |order|
        invariant |rows| == i
        invariant forall j | 0 <= j < i :: rows[j].id == order[j].id && RowTells(rows[j], cells[order[j].id], now)
        invariant availableCount == CountUp(rows)
      {
        var row := RowOf(order[i], now);
        if row.available {
          availableCount := availableCount + 1;
        }
        assert (rows + [row])[..i] == rows;
        rows := rows + [row];
      }
      RowsInOrder(rows, order, cells, now);
    }
  }

  // ---- From the configuration to the first outage ----

  function Failures(id: string, at: int, n: nat): seq<Event> {
    if n == 0 then [] else Failures(id, at, n - 1) + [Failed(id, at)]
  }

  lemma {:induction false} FailuresProject(id: string, at: int, n: nat)
    ensures Project(Failures(id, at, n), id) == Repeat(Failure(at), n)
  {
    if n > 0 {
      FailuresProject(id, at, n - 1);
      assert Failures(id, at, n)[..|Failures(id, at, n)| - 1] == Failures(id, at, n - 1);
    }
  }

  lemma {:induction false} FailuresFromFresh(p: Policy, at: int, n: nat)
    requires p.threshold >= 1
    ensures Run(Fresh(p), Repeat(Failure(at), n)) ==
            if p.enabled then Cell(p, n, if n >= p.threshold then Some(at + p.cooldown) else None) else Fresh(p)
  {
    if n > 0 {
      FailuresFromFresh(p, at, n - 1);
      assert Repeat(Failure(at), n)[..|Repeat(Failure(at), n)| - 1] == Repeat(Failure(at), n - 1);
    }
  }

  /**
    In the configuration's own terms: `n` failures reported at `at`, and nothing
    else, take a pool out of rotation exactly if its health is enabled, they are
    as many as its threshold (at least one), and until its cooldown is over, which
    is 30 seconds unless a duration is given.
   */
  lemma ConfiguredTrip(lib: Library, pools: seq<BackendPool>, i: nat, n: nat, at: int, now: int)
    requires DistinctIds(pools) && i < |pools|
    ensures var h := pools[i].health;
            var threshold := if h.failureThreshold > 0 then h.failureThreshold else 1;
            var cooldown := if h.cooldown != "" && lib.parseDuration(h.cooldown).Some?
                            then lib.parseDuration(h.cooldown).value else 30_000_000_000;
            var cells := RunAll(InitialCells(Policies(lib, pools)), Failures(pools[i].id, at, n));
            HealthSpec.Available(cells, pools[i].id, now) <==> !(h.enabled && n >= threshold && now < at + cooldown)
  {
    var id := pools[i].id;
    PolicyOfPool(lib, pools, i);
    RunAllProjects(InitialCells(Policies(lib, pools)), Failures(id, at, n), id);
    FailuresProject(id, at, n);
    FailuresFromFresh(PolicyOf(lib, pools[i]), at, n);
  }

  /** The same on a manager, from its construction on. */
  method TripAsConfigured(lib: Library, pools: seq<BackendPool>, i: nat, n: nat, at: int, now: int) returns (up: bool)
    requires DistinctIds(pools) && i < |pools|
    ensures var h := pools[i].health;
            var threshold := if h.failureThreshold > 0 then h.failureThreshold else 1;
            var cooldown := if h.cooldown != "" && lib.parseDuration(h.cooldown).Some?
                            then lib.parseDuration(h.cooldown).value else 30_000_000_000;
            up <==> !(h.enabled && n >= threshold && now < at + cooldown)
  {
    var manager := new Manager(lib, pools);
    for j := 0 to n
      invariant manager.Valid() && fresh(manager) && fresh(manager.backends.Values)
      invariant manager.cells == RunAll(InitialCells(Policies(lib, pools)), Failures(pools[i].id, at, j))
    {
      RunAllOne(InitialCells(Policies(lib, pools)), Failures(pools[i].id, at, j), Failed(pools[i].id, at));
      manager.ReportFailure(pools[i].id, at);
    }
    ConfiguredTrip(lib, pools, i, n, at, now);
    up := manager.Available(pools[i].id, now);
  }
}
