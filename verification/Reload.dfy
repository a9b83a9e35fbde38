/**
  The two published references of a replica and the reload that replaces them.
  Each method is one or two steps of `System`, taken on real managers.
 */
module Reload {
  import opened Wrappers
  import opened Config
  import opened SessionId
  import opened Proxy
  import opened ReverseProxy
  import HealthSpec
  import Health
  import Routing
  import Metrics
  import MetricsSpec
  import CreateSession
  import Playwright
  import System

  /** What one load builds; without a handler, proxied requests are answered 503. */
  datatype Runtime = Runtime(cfg: Config, handler: Option<Handler>, health: Health.Manager)

  /** The runtime as `System` sees it. */
  function GenerationOf(rt: Runtime): System.Generation {
    System.Generation(rt.cfg, if rt.handler.Some? then Some(rt.handler.value.tokenToBackend) else None)
  }

  /** The state that a load owns. */
  ghost function StateOf(rt: Runtime): set<object> {
    {rt.health as object} + rt.health.backends.Values
  }

  /** Configuration, routing and health of one load. */
  ghost predicate OneLoad(rt: Runtime) {
    rt.handler.Some? ==>
      var h := rt.handler.value;
      h.health == rt.health && h.pools == h.selector.pools == rt.cfg.pools && h.selector.catalog == rt.cfg.catalog
  }

  /** What a load built can serve: its handler routes by the inverse of its own tokens. */
  ghost predicate Serves(digest: Digest, rt: Runtime) {
    OneLoad(rt) && (rt.handler.Some? ==> Playwright.Wired(rt.handler.value, digest))
  }

  ghost predicate WellBuilt(lib: Library, digest: Digest, rt: Runtime) {
    && System.Loadable(lib, digest, GenerationOf(rt)) && OneLoad(rt)
    && rt.health.policies == Health.Policies(lib, rt.cfg.pools)
  }

  lemma BuiltServes(lib: Library, digest: Digest, rt: Runtime)
    requires WellBuilt(lib, digest, rt)
    ensures Serves(digest, rt)
  {}

  /** Builds everything for one configuration, or nothing. */
  method NewRuntime(lib: Library, digest: Digest, cfg: Config, ghost taken: set<object>)
    returns (r: Result<Runtime, ConfigError>)
    ensures r.Ok? <==> ValidConfig(lib, cfg)
    ensures r.Ok? ==> r.value.cfg == cfg && WellBuilt(lib, digest, r.value)
    ensures r.Ok? ==> fresh(StateOf(r.value)) && StateOf(r.value) !! taken
    ensures r.Ok? ==> r.value.health.Valid() && r.value.health.history == []
    ensures r.Ok? ==> r.value.health.cells == System.InitialHealth(lib, GenerationOf(r.value))
  {
    var error := Validate(lib, cfg);
    if error.Some? {
      return Err(error.value);
    }
    var rt := Build(lib, digest, cfg);
    return Ok(rt);
  }

  /** The parts of one load, made for each other. */
  method Build(lib: Library, digest: Digest, cfg: Config) returns (rt: Runtime)
    requires ValidConfig(lib, cfg)
    ensures rt.cfg == cfg && WellBuilt(lib, digest, rt) && fresh(StateOf(rt))
    ensures rt.health.Valid() && rt.health.history == []
    ensures rt.health.cells == System.InitialHealth(lib, GenerationOf(rt))
  {
    var health := new Health.Manager(lib, cfg.pools);
    var handler := MakeHandler(lib, digest, cfg, health);
    rt := Runtime(cfg, handler, health);
    FitTogether(lib, digest, rt);
  }

  /** A handler for this configuration and manager, unless two ids share a token. */
  ghost predicate HandlerFor(digest: Digest, cfg: Config, health: Health.Manager, handler: Option<Handler>) {
    && (handler.Some? <==> TokensDistinct(digest, PoolIds(cfg.pools)))
    && (handler.Some? ==>
          var h := handler.value;
          && h.health == health && h.pools == h.selector.pools == cfg.pools && h.selector.catalog == cfg.catalog
          && IndexInverts(digest, cfg.pools, h.tokenToBackend))
  }

  method MakeHandler(lib: Library, digest: Digest, cfg: Config, health: Health.Manager)
    returns (handler: Option<Handler>)
    requires ValidConfig(lib, cfg)
    ensures HandlerFor(digest, cfg, health, handler)
  {
    var made := NewHandler(lib, digest, cfg, health);
    return if made.Ok? then Some(made.value) else None;
  }

  lemma FitTogether(lib: Library, digest: Digest, rt: Runtime)
    requires ValidConfig(lib, rt.cfg) && HandlerFor(digest, rt.cfg, rt.health, rt.handler)
    requires rt.health.policies == Health.Policies(lib, rt.cfg.pools)
    ensures WellBuilt(lib, digest, rt)
  {}

  /** A load for replica `p`: storing what it built is the two store steps. */
  method Prepare(
    lib: Library, digest: Digest, loaded: Option<Config>, ghost p: System.Replica, ghost taken: set<object>)
    returns (r: Option<Runtime>)
    requires !p.storing
    ensures r.Some? <==> loaded.Some? && ValidConfig(lib, loaded.value)
    ensures r.Some? ==> r.value.cfg == loaded.value && Serves(digest, r.value)
    ensures r.Some? ==> fresh(StateOf(r.value)) && StateOf(r.value) !! taken
    ensures r.Some? ==> r.value.health.Valid() && r.value.health.history == []
    ensures r.Some? ==>
              var g := GenerationOf(r.value);
              var p' := System.Local(lib, digest, p, System.StoreHandler(0, g));
              System.Local(lib, digest, p', System.StoreHealth(0)) == System.Swapped(p, g, r.value.health.cells)
  {
    if loaded.None? {
      return None;
    }
    var runtime := NewRuntime(lib, digest, loaded.value, taken);
    if runtime.Err? {
      return None;
    }
    BuiltServes(lib, digest, runtime.value);
    System.SwapIsTwoStores(lib, digest, p, 0, GenerationOf(runtime.value));
    return Some(runtime.value);
  }

  /** The first load must succeed: nothing is served without one. */
  method NewReloadingHandler(lib: Library, digest: Digest, loaded: Option<Config>)
    returns (r: Result<ReloadingHandler, Option<ConfigError>>)
    ensures r.Ok? <==> loaded.Some? && ValidConfig(lib, loaded.value)
    ensures r.Ok? ==> fresh(r.value) && fresh(r.value.Repr) && r.value.lib == lib && r.value.digest == digest
    ensures r.Ok? ==> r.value.Valid() && System.Started(lib, digest, r.value.replica)
    ensures r.Ok? ==> r.value.metrics.http.log == r.value.metrics.proxy.log == [] && r.value.metrics.webSockets == map[]
  {
    var first := LoadFirst(lib, digest, loaded);
    if first.Err? {
      return Err(first.error);
    }
    var handler := WithMetrics(lib, digest, first.value);
    return Ok(handler);
  }

  method LoadFirst(lib: Library, digest: Digest, loaded: Option<Config>)
    returns (r: Result<Runtime, Option<ConfigError>>)
    ensures r.Ok? <==> loaded.Some? && ValidConfig(lib, loaded.value)
    ensures r.Ok? ==> Serves(digest, r.value) && fresh(StateOf(r.value))
    ensures r.Ok? ==> r.value.health.Valid() && r.value.health.history == []
    ensures r.Ok? ==> System.Started(lib, digest, FirstReplica(r.value, r.value.health.cells))
  {
    if loaded.None? {
      return Err(None);
    }
    var runtime := NewRuntime(lib, digest, loaded.value, {});
    if runtime.Err? {
      return Err(Some(runtime.error));
    }
    BuiltServes(lib, digest, runtime.value);
    System.StartsWith(lib, digest, GenerationOf(runtime.value));
    return Ok(runtime.value);
  }

  /** One load, both references published, nothing in flight. */
  function FirstReplica(first: Runtime, cells: HealthSpec.Model): System.Replica {
    System.Replica([GenerationOf(first)], 0, 0, false, [cells], [[]], map[])
  }

  method WithMetrics(lib: Library, digest: Digest, first: Runtime) returns (handler: ReloadingHandler)
    requires Serves(digest, first) && first.health.Valid() && first.health.history == []
    ensures fresh(handler) && handler.Valid() && handler.Repr == StateOf(first)
    ensures handler.metrics.http.log == handler.metrics.proxy.log == [] && handler.metrics.webSockets == map[]
    ensures handler.lib == lib && handler.digest == digest && handler.replica == FirstReplica(first, first.health.cells)
  {
    ghost var taken := StateOf(first);
    var metrics := new Metrics.Accumulator();
    assert metrics.Footprint() !! taken;
    handler := FirstHandler(lib, digest, metrics, first);
  }

  method FirstHandler(lib: Library, digest: Digest, metrics: Metrics.Accumulator, first: Runtime)
    returns (handler: ReloadingHandler)
    requires Serves(digest, first) && first.health.Valid() && first.health.history == []
    requires metrics.Valid() && StateOf(first) !! metrics.Footprint()
    ensures fresh(handler) && handler.Valid() && handler.Repr == StateOf(first) && handler.metrics == metrics
    ensures handler.lib == lib && handler.digest == digest && handler.replica == FirstReplica(first, first.health.cells)
  {
    ghost var taken := metrics.Footprint();
    handler := new ReloadingHandler(lib, digest, metrics, first);
    assert metrics.Footprint() == taken && handler !in taken;
    handler.FirstIsValid(first);
  }

  /** What one new-session attempt reports. */
  function AttemptReports(
    digest: Digest, chosen: Result<BackendPool, int>, reply: CreateSession.Reply, repliedAt: int, refusedAt: int):
    seq<HealthSpec.Event>
  {
    if chosen.Err? then []
    else CreateSession.ReportsOf(reply, Token(digest, chosen.value.id), chosen.value.id, repliedAt, refusedAt)
  }

  /** And what it records. */
  function AttemptRecords(chosen: Result<BackendPool, int>, reply: CreateSession.Reply, seconds: real):
    seq<MetricsSpec.Observation<Metrics.Pair, string>>
  {
    if chosen.Err? then [] else CreateSession.RecordsOf(reply, chosen.value.id, seconds)
  }

  /**
    The backend is the one that the load's health, the request and the draw decide
    on, and the answer is its reply's.
   */
  ghost predicate Attempted(
    digest: Digest, h: Handler, view: Routing.View, isPost: bool, body: Body, end: nat, draw: int -> int,
    reply: CreateSession.Reply, chosen: Result<BackendPool, int>, result: CreateSession.CreateResult)
  {
    && CreateSession.Admitted(h, isPost, body, end, view, draw, chosen)
    && (chosen.Err? ==> result == CreateSession.Refused(chosen.error))
    && (chosen.Ok? ==> chosen.value in h.pools && CreateSession.Answers(result, reply, Token(digest, chosen.value.id)))
  }

  /** `Create` for a handler that has both collaborators. */
  method CreateOn(
    h: Handler, digest: Digest, health: Health.Manager, metrics: Metrics.Accumulator, ghost apart: set<object>,
    isPost: bool, body: Body, end: nat, draw: int -> int,
    selectedAt: int, reply: CreateSession.Reply, repliedAt: int, refusedAt: int, seconds: real)
    returns (result: CreateSession.CreateResult, chosen: Result<BackendPool, int>)
    requires CreateSession.Ready(health, metrics, apart) && Routing.FairDraw(draw)
    requires h.health == health && Playwright.Wired(h, digest)
    modifies health, health.backends.Values, CreateSession.MetricsFrame(metrics)
    ensures CreateSession.Ready(health, metrics, apart)
    ensures Attempted(
              digest, h, old(Routing.ViewOf(health, selectedAt)), isPost, body, end, draw, reply, chosen, result)
    ensures health.history == old(health.history) + AttemptReports(digest, chosen, reply, repliedAt, refusedAt)
    ensures metrics.proxy.log == old(metrics.proxy.log) + AttemptRecords(chosen, reply, seconds)
  {
    result, chosen := CreateSession.Create(
      h, digest, metrics, apart, isPost, body, end, draw, selectedAt, reply, repliedAt, refusedAt, seconds);
  }

  /** `RelayReply` with both collaborators. */
  method RelayOn(
    health: Health.Manager, metrics: Metrics.Accumulator, ghost apart: set<object>,
    protocol: Protocol, backendId: string, end: CreateSession.Proxied, at: int, seconds: real)
    requires CreateSession.Ready(health, metrics, apart)
    modifies health, health.backends.Values, CreateSession.MetricsFrame(metrics)
    ensures CreateSession.Ready(health, metrics, apart)
    ensures health.history == old(health.history) + CreateSession.ProxiedReports(end, backendId, at)
    ensures metrics.proxy.log ==
            old(metrics.proxy.log) + CreateSession.ProxiedRecords(end, protocol, backendId, seconds)
  {
    CreateSession.RelayReply(health, metrics, apart, protocol, backendId, end, at, seconds);
  }

  /** Managers of different loads share nothing. */
  ghost predicate Apart(a: Health.Manager, b: Health.Manager) {
    a != b && a.backends.Values !! b.backends.Values
  }

  ghost predicate AllApart(built: seq<Runtime>) {
    forall j, k | 0 <= j < |built| && 0 <= k < |built| && j != k :: Apart(built[j].health, built[k].health)
  }

  class ReloadingHandler {
    const lib: Library
    const digest: Digest
    const metrics: Metrics.Accumulator
    var current: Option<Runtime>
    var currentHealth: Health.Manager?
    /** Every runtime ever published. */
    ghost var built: seq<Runtime>
    /** This handler as a replica of the step system, with the requests in flight. */
    ghost var replica: System.Replica
    ghost var Repr: set<object>

    ghost predicate Valid()
      reads this, Repr, metrics.Footprint()
    {
      Core() && (forall rt <- built :: Serves(digest, rt)) && metrics.Valid() && ApartFromMetrics()
    }

    /** All loads are mirrored in the step system. */
    ghost predicate Core()
      reads this, Repr
    {
      Shape() && forall k | 0 <= k < |built| :: Mirrors(k)
    }

    /** Metrics are shared by all loads and share nothing with them. */
    ghost predicate ApartFromMetrics()
      reads this, metrics.Footprint()
    {
      Repr !! metrics.Footprint() && this !in metrics.Footprint()
    }

    ghost predicate Shape()
      reads this
    {
      && |built| > 0 && AllApart(built) && Published()
      && (forall k | 0 <= k < |built| :: Owns(built[k]))
      && |replica.generations| == |replica.managers| == |replica.logs| == |built|
      && (forall q <- replica.pinned :: replica.pinned[q] < |built|)
    }

    /** Both references are those of the last load. */
    ghost predicate Published()
      reads this
      requires |built| > 0
    {
      && current == Some(built[|built| - 1]) && currentHealth == built[|built| - 1].health
      && replica.handler == replica.health == |built| - 1 && !replica.storing
    }

    ghost predicate Owns(rt: Runtime)
      reads this
    {
      StateOf(rt) <= Repr
    }

    ghost predicate Mirrors(k: nat)
      requires k < |built| && Owns(built[k])
      requires |replica.generations| == |replica.managers| == |replica.logs| == |built|
      reads this, Repr
    {
      && built[k].health.Valid() && replica.generations[k] == GenerationOf(built[k])
      && replica.managers[k] == built[k].health.cells && replica.logs[k] == built[k].health.history
    }

    /** The state right after the first load; `FirstIsValid` tells that it is a valid one. */
    constructor (lib: Library, digest: Digest, metrics: Metrics.Accumulator, first: Runtime)
      ensures this.lib == lib && this.digest == digest && this.metrics == metrics
      ensures current == Some(first) && currentHealth == first.health && built == [first] && Repr == StateOf(first)
      ensures replica == FirstReplica(first, first.health.cells)
    {
      this.lib, this.digest, this.metrics := lib, digest, metrics;
      current, currentHealth := Some(first), first.health;
      built := [first];
      replica := FirstReplica(first, first.health.cells);
      Repr := StateOf(first);
    }

    lemma FirstIsValid(first: Runtime)
      requires built == [first] && Repr == StateOf(first) && first.health.Valid() && first.health.history == []
      requires replica == FirstReplica(first, first.health.cells)
      requires current == Some(first) && currentHealth == first.health && Serves(digest, first)
      requires metrics.Valid() && ApartFromMetrics()
      ensures Valid()
    {
      assert Mirrors(0);
    }

    /**
      `loaded` is the configuration read from disk, with every secret resolved.
      A failed load changes nothing; a good one is the two stores, one after
      the other. No manager and no metric already there is touched.
     */
    method Reload(loaded: Option<Config>) returns (ok: bool)
      requires Valid()
      modifies this
      ensures Valid() && (ok <==> loaded.Some? && ValidConfig(lib, loaded.value))
      ensures !ok ==> current == old(current) && built == old(built) && replica == old(replica)
      ensures ok ==> current.Some? && current.value.cfg == loaded.value && built == old(built) + [current.value]
      ensures ok ==>
                var g := GenerationOf(current.value);
                var stored := System.Local(lib, digest, old(replica), System.StoreHandler(0, g));
                replica == System.Local(lib, digest, stored, System.StoreHealth(0))
      ensures unchanged(metrics, metrics.http, metrics.proxy)
    {
      var runtime := Prepare(lib, digest, loaded, replica, Repr + metrics.Footprint());
      if runtime.None? {
        return false;
      }
      Publish(runtime.value);
      return true;
    }

    /** The two stores. */
    method Publish(rt: Runtime)
      requires Valid() && Serves(digest, rt) && rt.health.Valid() && rt.health.history == []
      requires StateOf(rt) !! Repr && StateOf(rt) !! metrics.Footprint()
      modifies this
      ensures Valid() && current == Some(rt) && built == old(built) + [rt]
      ensures replica == System.Swapped(old(replica), GenerationOf(rt), rt.health.cells)
      ensures Repr == old(Repr) + StateOf(rt)
    {
      Store(rt);
    }

    method Store(rt: Runtime)
      requires Core() && rt.health.Valid() && rt.health.history == [] && StateOf(rt) !! Repr
      modifies this
      ensures Core() && current == Some(rt) && built == old(built) + [rt]
      ensures replica == System.Swapped(old(replica), GenerationOf(rt), rt.health.cells)
      ensures Repr == old(Repr) + StateOf(rt)
    {
      replica := System.WithGeneration(replica, GenerationOf(rt), rt.health.cells);
      current := Some(rt);
      replica := replica.(health := replica.handler, storing := false);
      currentHealth := rt.health;
      Own(rt);
      forall k | 0 <= k < |built| - 1 ensures Mirrors(k) {
        Stays(k);
      }
    }

    ghost method Own(rt: Runtime)
      requires |built| > 0 && AllApart(built) && forall k | 0 <= k < |built| :: Owns(built[k])
      requires StateOf(rt) !! Repr
      modifies this`built, this`Repr
      ensures built == old(built) + [rt] && Repr == old(Repr) + StateOf(rt)
      ensures AllApart(built) && forall k | 0 <= k < |built| :: Owns(built[k])
    {
      forall k | 0 <= k < |built| ensures Apart(built[k].health, rt.health) {
        assert Owns(built[k]);
        assert built[k].health in StateOf(built[k]) && rt.health in StateOf(rt);
      }
      built := built + [rt];
      Repr := Repr + StateOf(rt);
    }

    /** What a request does first; it keeps what it loaded. */
    method Load(ghost q: nat) returns (r: Result<Runtime, int>)
      requires Valid() && q !in replica.pinned
      modifies this`replica
      ensures Valid() && r.Ok?
      ensures replica == System.Local(lib, digest, old(replica), System.Begin(0, q))
      ensures Pins(q, r.value) && Serves(digest, r.value)
      ensures replica.generations[replica.pinned[q]] == GenerationOf(r.value)
    {
      if current.None? {
        assert false;
      }
      assert current.value in built && Mirrors(|built| - 1);
      Pin(q);
      return Ok(current.value);
    }

    ghost method Pin(q: nat)
      requires Valid() && q !in replica.pinned
      modifies this`replica
      ensures Valid() && replica == old(replica).(pinned := old(replica).pinned[q := |built| - 1])
    {
      replica := replica.(pinned := replica.pinned[q := |built| - 1]);
      forall k | 0 <= k < |built| ensures Mirrors(k) {
        Stays(k);
      }
    }

    /** The request is over. */
    ghost method Finish(q: nat)
      requires Valid()
      modifies this`replica
      ensures Valid() && replica == System.Local(lib, digest, old(replica), System.End(0, q))
    {
      replica := System.Local(lib, digest, replica, System.End(0, q));
      forall k | 0 <= k < |built| ensures Mirrors(k) {
        Stays(k);
      }
    }

    /** The outcome of a request in flight, told to the manager it loaded at its start and to no other. */
    method ReportOutcome(rt: Runtime, ghost q: nat, backendId: string, failed: bool, now: int)
      requires Valid() && Pins(q, rt)
      modifies this`replica, rt.health, rt.health.backends.Values
      ensures Valid()
      ensures var e := if failed then HealthSpec.Failed(backendId, now) else HealthSpec.Succeeded(backendId, now);
              replica == System.Local(lib, digest, old(replica), System.Report(0, q, e))
    {
      System.ReportIsTell(lib, digest, replica, 0, q, OutcomeEvent(backendId, failed, now));
      TellHome(rt, replica.pinned[q], backendId, failed, now);
    }

    static function OutcomeEvent(backendId: string, failed: bool, now: int): HealthSpec.Event {
      if failed then HealthSpec.Failed(backendId, now) else HealthSpec.Succeeded(backendId, now)
    }

    method TellHome(rt: Runtime, ghost home: nat, backendId: string, failed: bool, now: int)
      requires Core() && home < |built| && built[home] == rt
      modifies this`replica, rt.health, rt.health.backends.Values
      ensures Core() && replica == System.TellAll(old(replica), home, [OutcomeEvent(backendId, failed, now)])
    {
      assert Mirrors(home);
      if failed {
        rt.health.ReportFailure(backendId, now);
      } else {
        rt.health.ReportSuccess(backendId, now);
      }
      OthersStay(home);
      Told(home, [OutcomeEvent(backendId, failed, now)]);
    }

    /** A load whose manager was not touched still mirrors what it did. */
    twostate lemma Stays(k: nat)
      requires old(Shape()) && k < old(|built|) && old(Mirrors(k))
      requires |built| >= old(|built|) && built[k] == old(built[k]) && Owns(built[k])
      requires |replica.generations| == |replica.managers| == |replica.logs| == |built|
      requires replica.managers[k] == old(replica).managers[k] && replica.logs[k] == old(replica).logs[k]
      requires replica.generations[k] == old(replica).generations[k]
      requires unchanged(built[k].health, built[k].health.backends.Values)
      ensures Mirrors(k)
    {}

    /** A change to the manager of load `home` leaves all other loads as they were. */
    twostate lemma OthersStay(home: nat)
      requires old(Shape()) && unchanged(this) && home < |built|
      requires forall k | 0 <= k < |built| && k != home :: old(Mirrors(k))
      requires forall k | 0 <= k < |built| && k != home :: unchanged(built[k].health, built[k].health.backends.Values)
      ensures forall k | 0 <= k < |built| && k != home :: Mirrors(k)
    {
      forall k | 0 <= k < |built| && k != home ensures Mirrors(k) {
        Stays(k);
      }
    }

    /** Notes the events that the manager of load `home` has already taken. */
    ghost method Told(home: nat, events: seq<HealthSpec.Event>)
      requires Shape() && home < |built| && forall k | 0 <= k < |built| && k != home :: Mirrors(k)
      requires var m := built[home].health;
               && m.Valid() && replica.generations[home] == GenerationOf(built[home])
               && m.history == replica.logs[home] + events
               && replica.managers[home] == HealthSpec.RunAll(HealthSpec.InitialCells(m.policies), replica.logs[home])
      modifies this`replica
      ensures Core() && replica == System.TellAll(old(replica), home, events) && replica.pinned == old(replica).pinned
    {
      System.TellAllIs(replica, home, events, HealthSpec.InitialCells(built[home].health.policies));
      replica := System.TellAll(replica, home, events);
      assert Mirrors(home);
      forall k | 0 <= k < |built| && k != home ensures Mirrors(k) {
        Stays(k);
      }
    }

    /** The published health: one row per backend of the current load, with that backend's own description. */
    method Snapshot(now: int) returns (status: Health.Status, rows: seq<Health.BackendSnapshot>)
      requires Valid()
      modifies this`replica, currentHealth, if currentHealth == null then {} else currentHealth.backends.Values
      ensures Valid()
      ensures replica == System.Local(lib, digest, old(replica), System.ScrapePublished(0, now))
      ensures Health.RowsReport(rows, replica.managers[replica.health], now)
      ensures currentHealth != null && forall row <- rows ::
                row.id in currentHealth.backends && Health.RowNames(row, currentHealth.backends[row.id])
      ensures status == Health.StatusOk <==> Health.SomeUp(replica.managers[replica.health], now)
    {
      if currentHealth == null {
        assert false;
      }
      System.ScrapeIsTell(lib, digest, replica, 0, now);
      status, rows := ScrapeCurrent(currentHealth, now);
    }

    method ScrapeCurrent(m: Health.Manager, now: int) returns (status: Health.Status, rows: seq<Health.BackendSnapshot>)
      requires Core() && m == currentHealth
      modifies this`replica, m, m.backends.Values
      ensures Core() && replica == System.TellAll(old(replica), old(replica).health, [HealthSpec.Scraped(now)])
      ensures replica.health < |replica.managers| && Health.RowsReport(rows, replica.managers[replica.health], now)
      ensures forall row <- rows :: row.id in m.backends && Health.RowNames(row, m.backends[row.id])
      ensures status == Health.StatusOk <==> Health.SomeUp(replica.managers[replica.health], now)
    {
      ghost var home := replica.health;
      assert Mirrors(home);
      status, rows := m.Snapshot(now);
      OthersStay(home);
      Told(home, [HealthSpec.Scraped(now)]);
    }

    /** Request `q` holds `rt`. */
    ghost predicate Pins(q: nat, rt: Runtime)
      reads this
    {
      q in replica.pinned && replica.pinned[q] < |built| && built[replica.pinned[q]] == rt
    }

    /**
      A new-session request on what it loaded: its reports go to its own manager,
      its metrics to the shared accumulator.
     */
    method Attempt(
      rt: Runtime, ghost q: nat, h: Handler, isPost: bool, body: Body, end: nat, draw: int -> int,
      selectedAt: int, reply: CreateSession.Reply, repliedAt: int, refusedAt: int, seconds: real)
      returns (result: CreateSession.CreateResult, chosen: Result<BackendPool, int>)
      requires Valid() && Pins(q, rt) && rt.handler == Some(h) && Routing.FairDraw(draw)
      modifies this`replica, rt.health, rt.health.backends.Values, CreateSession.MetricsFrame(metrics)
      ensures Valid() && Pins(q, rt)
      ensures Attempted(
                digest, h, old(Routing.ViewOf(rt.health, selectedAt)), isPost, body, end, draw, reply, chosen, result)
      ensures replica == System.TellAll(
                old(replica), old(replica).pinned[q], AttemptReports(digest, chosen, reply, repliedAt, refusedAt))
      ensures metrics.proxy.log == old(metrics.proxy.log) + AttemptRecords(chosen, reply, seconds)
    {
      ghost var home := replica.pinned[q];
      ReadyToServe(home);
      result, chosen := Serve(rt, home, h, isPost, body, end, draw, selectedAt, reply, repliedAt, refusedAt, seconds);
      Settle(home, AttemptReports(digest, chosen, reply, repliedAt, refusedAt));
    }

    /** Load `home` may serve; its manager has taken `events` that are not noted yet. */
    ghost predicate Serving(home: nat, events: seq<HealthSpec.Event>)
      reads this, Repr, metrics.Footprint()
    {
      && Shape() && home < |built| && (forall k | 0 <= k < |built| && k != home :: Mirrors(k))
      && (forall rt <- built :: Serves(digest, rt)) && CreateSession.Ready(built[home].health, metrics, Repr + {this})
      && var m := built[home].health;
         && replica.generations[home] == GenerationOf(built[home])
         && m.history == replica.logs[home] + events
         && replica.managers[home] == HealthSpec.RunAll(HealthSpec.InitialCells(m.policies), replica.logs[home])
    }

    lemma ReadyToServe(home: nat)
      requires Valid() && home < |built|
      ensures Serving(home, [])
    {
      assert Mirrors(home);
      assert replica.logs[home] + [] == replica.logs[home];
    }

    /** The attempt on the real objects, before it is noted. */
    method Serve(
      rt: Runtime, ghost home: nat, h: Handler, isPost: bool, body: Body, end: nat, draw: int -> int,
      selectedAt: int, reply: CreateSession.Reply, repliedAt: int, refusedAt: int, seconds: real)
      returns (result: CreateSession.CreateResult, chosen: Result<BackendPool, int>)
      requires Serving(home, []) && built[home] == rt && rt.handler == Some(h) && Routing.FairDraw(draw)
      modifies rt.health, rt.health.backends.Values, CreateSession.MetricsFrame(metrics)
      ensures Serving(home, AttemptReports(digest, chosen, reply, repliedAt, refusedAt))
      ensures Attempted(
                digest, h, old(Routing.ViewOf(rt.health, selectedAt)), isPost, body, end, draw, reply, chosen, result)
      ensures metrics.proxy.log == old(metrics.proxy.log) + AttemptRecords(chosen, reply, seconds)
    {
      assert rt in built && replica.logs[home] + [] == replica.logs[home];
      result, chosen := ServeAt(rt, home, h, isPost, body, end, draw, selectedAt, reply, repliedAt, refusedAt, seconds);
    }

    method ServeAt(
      rt: Runtime, ghost home: nat, h: Handler, isPost: bool, body: Body, end: nat, draw: int -> int,
      selectedAt: int, reply: CreateSession.Reply, repliedAt: int, refusedAt: int, seconds: real)
      returns (result: CreateSession.CreateResult, chosen: Result<BackendPool, int>)
      requires Shape() && home < |built| && built[home] == rt && forall k | 0 <= k < |built| && k != home :: Mirrors(k)
      requires CreateSession.Ready(rt.health, metrics, Repr + {this}) && Routing.FairDraw(draw)
      requires rt.handler == Some(h) && Serves(digest, rt)
      modifies rt.health, rt.health.backends.Values, CreateSession.MetricsFrame(metrics)
      ensures forall k | 0 <= k < |built| && k != home :: Mirrors(k)
      ensures CreateSession.Ready(rt.health, metrics, Repr + {this})
      ensures Attempted(
                digest, h, old(Routing.ViewOf(rt.health, selectedAt)), isPost, body, end, draw, reply, chosen, result)
      ensures rt.health.history == old(rt.health.history) + AttemptReports(digest, chosen, reply, repliedAt, refusedAt)
      ensures metrics.proxy.log == old(metrics.proxy.log) + AttemptRecords(chosen, reply, seconds)
    {
      result, chosen := CreateOn(
        h, digest, rt.health, metrics, Repr + {this}, isPost, body, end, draw, selectedAt, reply, repliedAt,
        refusedAt, seconds);
      OthersStay(home);
    }

    /** Notes what load `home` has served. */
    ghost method Settle(home: nat, events: seq<HealthSpec.Event>)
      requires Serving(home, events)
      modifies this`replica
      ensures Valid() && replica == System.TellAll(old(replica), home, events) && replica.pinned == old(replica).pinned
    {
      Told(home, events);
    }

    /** The end of a request that was proxied to one backend of what it loaded. */
    method Relay(
      rt: Runtime, ghost q: nat, protocol: Protocol, backendId: string, end: CreateSession.Proxied, at: int,
      seconds: real)
      requires Valid() && Pins(q, rt)
      modifies this`replica, rt.health, rt.health.backends.Values, CreateSession.MetricsFrame(metrics)
      ensures Valid() && Pins(q, rt)
      ensures replica == System.TellAll(
                old(replica), old(replica).pinned[q], CreateSession.ProxiedReports(end, backendId, at))
      ensures metrics.proxy.log ==
              old(metrics.proxy.log) + CreateSession.ProxiedRecords(end, protocol, backendId, seconds)
    {
      ghost var home := replica.pinned[q];
      ReadyToServe(home);
      RelayFrom(rt, home, protocol, backendId, end, at, seconds);
      Settle(home, CreateSession.ProxiedReports(end, backendId, at));
    }

    method RelayFrom(
      rt: Runtime, ghost home: nat, protocol: Protocol, backendId: string, end: CreateSession.Proxied, at: int,
      seconds: real)
      requires Serving(home, []) && built[home] == rt
      modifies rt.health, rt.health.backends.Values, CreateSession.MetricsFrame(metrics)
      ensures Serving(home, CreateSession.ProxiedReports(end, backendId, at))
      ensures metrics.proxy.log ==
              old(metrics.proxy.log) + CreateSession.ProxiedRecords(end, protocol, backendId, seconds)
    {
      assert replica.logs[home] + [] == replica.logs[home];
      RelayAt(rt, home, protocol, backendId, end, at, seconds);
    }

    method RelayAt(
      rt: Runtime, ghost home: nat, protocol: Protocol, backendId: string, end: CreateSession.Proxied, at: int,
      seconds: real)
      requires Shape() && home < |built| && built[home] == rt && forall k | 0 <= k < |built| && k != home :: Mirrors(k)
      requires CreateSession.Ready(rt.health, metrics, Repr + {this})
      modifies rt.health, rt.health.backends.Values, CreateSession.MetricsFrame(metrics)
      ensures forall k | 0 <= k < |built| && k != home :: Mirrors(k)
      ensures CreateSession.Ready(rt.health, metrics, Repr + {this})
      ensures rt.health.history == old(rt.health.history) + CreateSession.ProxiedReports(end, backendId, at)
      ensures metrics.proxy.log ==
              old(metrics.proxy.log) + CreateSession.ProxiedRecords(end, protocol, backendId, seconds)
    {
      RelayOn(rt.health, metrics, Repr + {this}, protocol, backendId, end, at, seconds);
      OthersStay(home);
    }

    lemma Usable(home: nat)
      requires Valid() && home < |built| && built[home].handler.Some?
      ensures var h := built[home].handler.value;
              Playwright.Wired(h, digest) && h.health == built[home].health && built[home].health.Valid()
    {
      assert built[home] in built && Mirrors(home);
    }

    /** A Playwright upgrade on what it loaded. */
    method Upgrade(
      rt: Runtime, ghost q: nat, h: Handler, path: string, upgrade: bool, header: Headers, random: Option<Digest16>,
      now: int, draw: int -> int)
      returns (reply: Playwright.Reply, header': Headers)
      requires Valid() && Pins(q, rt) && rt.handler == Some(h) && Routing.FairDraw(draw)
      modifies metrics`webSockets
      ensures Valid()
      ensures Playwright.Answered(h, digest, path, upgrade, random, old(Routing.ViewOf(rt.health, now)), draw, reply)
      ensures reply.Refused? ==> header' == header && metrics.webSockets == old(metrics.webSockets)
      ensures reply.Upgrading? ==> header' == header[Playwright.EXTERNAL_SESSION_ID := [reply.publicId]]
      ensures reply.Upgrading? ==>
                Metrics.OneMore(old(metrics.webSockets), metrics.webSockets, (reply.pool.id, "started"))
    {
      Usable(replica.pinned[q]);
      reply, header' := Playwright.ProxyPlaywright(h, digest, path, upgrade, header, random, now, draw, metrics);
      SocketsMoved();
    }

    /** The web-socket counters are nobody's business but their own. */
    twostate lemma SocketsMoved()
      requires old(Valid()) && unchanged(this) && unchanged(Repr) && unchanged(old(metrics.Footprint() - {metrics}))
      ensures Valid()
    {
      forall k | 0 <= k < |built| ensures Mirrors(k) {
        Stays(k);
      }
    }

    /** What the middleware records after every request. */
    method RecordRequest(verb: string, route: string, status: string, seconds: real)
      requires Valid()
      modifies metrics.http, metrics.http.durations.Repr
      ensures Valid() && metrics.proxy.log == old(metrics.proxy.log)
      ensures metrics.http.log == old(metrics.http.log) + [MetricsSpec.Observation((verb, route), status, seconds)]
    {
      metrics.RecordHttpRequest(verb, route, status, seconds);
    }

    /**
      Conservation in every state that this object can be in, whatever was loaded,
      failed to load or was served before.
     */
    lemma MetricsConserved(group: Metrics.Pair)
      requires Valid()
      ensures MetricsSpec.SumGroup(metrics.http.requests, group) ==
              if group in metrics.http.durations.histograms then metrics.http.durations.histograms[group].count else 0
      ensures MetricsSpec.SumGroup(metrics.proxy.requests, group) ==
              if group in metrics.proxy.durations.histograms then metrics.proxy.durations.histograms[group].count else 0
    {
      metrics.http.CountersMatchHistogram(group);
      metrics.proxy.CountersMatchHistogram(group);
    }

    /** The metrics part of the exposition; its health part is `Snapshot`, taken afterwards. */
    method Expose() returns (x: Metrics.Exposition)
      requires Valid()
      ensures Metrics.Exposes(x, metrics.http.log, metrics.proxy.log, metrics.webSockets)
      ensures fresh(Metrics.CopiesIn(x))
    {
      x := metrics.Scrape();
    }
  }
}
