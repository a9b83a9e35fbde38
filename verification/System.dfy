/**
  Replicas, reloads and requests in flight as one step system. A replica
  publishes its handler and its health manager by two separate stores; a
  request keeps the generation it loaded when it began.
 */
module System {
  import opened Wrappers
  import opened Config
  import opened SessionId
  import opened Proxy
  import HealthSpec
  import Health
  import CreateSession
  import Playwright

  /** What one successful load builds. A token collision leaves a handler without index, which answers 503. */
  datatype Generation = Generation(cfg: Config, index: Option<TokenIndex>)

  ghost predicate Loadable(lib: Library, digest: Digest, g: Generation) {
    && ValidConfig(lib, g.cfg)
    && (g.index.Some? <==> TokensDistinct(digest, PoolIds(g.cfg.pools)))
    && (g.index.Some? ==> IndexInverts(digest, g.cfg.pools, g.index.value))
  }

  function InitialHealth(lib: Library, g: Generation): HealthSpec.Model {
    HealthSpec.InitialCells(Health.Policies(lib, g.cfg.pools))
  }

  /**
    `handler` and `health` are the published generations; `storing` holds
    between the two stores of a reload. Managers live on per generation.
   */
  datatype Replica = Replica(
    generations: seq<Generation>, handler: nat, health: nat, storing: bool,
    managers: seq<HealthSpec.Model>, logs: seq<seq<HealthSpec.Event>>, pinned: map<nat, nat>)

  datatype Issue = Issue(publicId: string, backendId: string, upstream: string)

  /** `ever` collects every backend id that was ever configured anywhere. */
  datatype State = State(replicas: seq<Replica>, issued: set<Issue>, ever: set<string>)

  datatype Event =
    | ReloadFails(r: nat)
    | StoreHandler(r: nat, g: Generation)
    | StoreHealth(r: nat)
    | Begin(r: nat, q: nat)
    | Mint(r: nat, q: nat, backendId: string, upstream: string)
    | Report(r: nat, q: nat, e: HealthSpec.Event)
    | ScrapePublished(r: nat, at: int)
    | End(r: nat, q: nat)

  /** One manager takes one event. */
  function Tell(p: Replica, g: nat, e: HealthSpec.Event): Replica
    requires g < |p.managers| && g < |p.logs|
  {
    p.(managers := p.managers[g := HealthSpec.ApplyAll(p.managers[g], e)], logs := p.logs[g := p.logs[g] + [e]])
  }

  /** The first of the two stores: a new handler with a manager of its own. */
  function WithGeneration(p: Replica, g: Generation, manager: HealthSpec.Model): Replica {
    p.(generations := p.generations + [g], handler := |p.generations|, storing := true,
       managers := p.managers + [manager], logs := p.logs + [[]])
  }

  /** Both stores of one reload. */
  function Swapped(p: Replica, g: Generation, manager: HealthSpec.Model): Replica {
    var p' := WithGeneration(p, g, manager);
    p'.(health := p'.handler, storing := false)
  }

  /** The part of a step that happens at its replica; a step that is not enabled changes nothing. */
  ghost function Local(lib: Library, digest: Digest, p: Replica, e: Event): Replica {
    match e
    case ReloadFails(_) => p
    case StoreHandler(_, g) =>
      if p.storing || !Loadable(lib, digest, g) then p
      else WithGeneration(p, g, InitialHealth(lib, g))
    case StoreHealth(_) => if p.storing then p.(health := p.handler, storing := false) else p
    case Begin(_, q) => if q in p.pinned then p else p.(pinned := p.pinned[q := p.handler])
    case Mint(_, _, _, _) => p
    case Report(_, q, event) =>
      if q in p.pinned && p.pinned[q] < |p.managers| && p.pinned[q] < |p.logs| then Tell(p, p.pinned[q], event) else p
    case ScrapePublished(_, at) =>
      if p.health < |p.managers| && p.health < |p.logs| then Tell(p, p.health, HealthSpec.Scraped(at)) else p
    case End(_, q) => p.(pinned := p.pinned - {q})
  }

  lemma SwapIsTwoStores(lib: Library, digest: Digest, p: Replica, r: nat, g: Generation)
    requires !p.storing && Loadable(lib, digest, g)
    ensures Local(lib, digest, Local(lib, digest, p, StoreHandler(r, g)), StoreHealth(r)) ==
            Swapped(p, g, InitialHealth(lib, g))
  {}

  /** One manager takes several events, one after the other. */
  function TellAll(p: Replica, g: nat, events: seq<HealthSpec.Event>): (r: Replica)
    requires g < |p.managers| && g < |p.logs|
    ensures |r.managers| == |p.managers| && |r.logs| == |p.logs|
  {
    if events == [] then p
    else
      var n := |events| - 1;
      Tell(TellAll(p, g, events[..n]), g, events[n])
  }

  lemma TellAllOne(p: Replica, g: nat, e: HealthSpec.Event)
    requires g < |p.managers| && g < |p.logs|
    ensures TellAll(p, g, [e]) == Tell(p, g, e)
  {
    assert [e][..0] == [];
  }

  /** The replica with one manager and its log replaced. */
  function WithManager(p: Replica, g: nat, manager: HealthSpec.Model, log: seq<HealthSpec.Event>): Replica
    requires g < |p.managers| && g < |p.logs|
  {
    p.(managers := p.managers[g := manager], logs := p.logs[g := log])
  }

  lemma TellOneMore(p: Replica, g: nat, manager: HealthSpec.Model, log: seq<HealthSpec.Event>, e: HealthSpec.Event)
    requires g < |p.managers| && g < |p.logs|
    ensures Tell(WithManager(p, g, manager, log), g, e) == WithManager(p, g, HealthSpec.ApplyAll(manager, e), log + [e])
  {}

  lemma LogOneMore(first: HealthSpec.Model, log: seq<HealthSpec.Event>, events: seq<HealthSpec.Event>)
    requires events != []
    ensures var n := |events| - 1;
            var before := log + events[..n];
            && log + events == before + [events[n]]
            && HealthSpec.RunAll(first, log + events) ==
               HealthSpec.ApplyAll(HealthSpec.RunAll(first, before), events[n])
  {
    var n := |events| - 1;
    assert log + events == log + events[..n] + [events[n]];
    HealthSpec.RunAllOne(first, log + events[..n], events[n]);
  }

  /** What telling adds up to, for a manager that follows its log. */
  lemma {:induction false} TellAllIs(p: Replica, g: nat, events: seq<HealthSpec.Event>, first: HealthSpec.Model)
    requires g < |p.managers| && g < |p.logs| && p.managers[g] == HealthSpec.RunAll(first, p.logs[g])
    ensures var log := p.logs[g] + events;
            TellAll(p, g, events) == WithManager(p, g, HealthSpec.RunAll(first, log), log)
  {
    if events == [] {
      assert p.logs[g] + events == p.logs[g];
    } else {
      var n := |events| - 1;
      var before := p.logs[g] + events[..n];
      var manager := HealthSpec.RunAll(first, before);
      TellAllIs(p, g, events[..n], first);
      TellOneMore(p, g, manager, before, events[n]);
      LogOneMore(first, p.logs[g], events);
    }
  }

  lemma ReportIsTell(lib: Library, digest: Digest, p: Replica, r: nat, q: nat, e: HealthSpec.Event)
    requires q in p.pinned && p.pinned[q] < |p.managers| == |p.logs|
    ensures Local(lib, digest, p, Report(r, q, e)) == TellAll(p, p.pinned[q], [e])
  {
    TellAllOne(p, p.pinned[q], e);
  }

  lemma ScrapeIsTell(lib: Library, digest: Digest, p: Replica, r: nat, at: int)
    requires p.health < |p.managers| == |p.logs|
    ensures Local(lib, digest, p, ScrapePublished(r, at)) == TellAll(p, p.health, [HealthSpec.Scraped(at)])
  {
    TellAllOne(p, p.health, HealthSpec.Scraped(at));
  }

  /** A request in flight may mint an id for any backend of its own generation that it was placed on. */
  predicate CanMint(p: Replica, q: nat, backendId: string, upstream: string) {
    && q in p.pinned && p.pinned[q] < |p.generations|
    && p.generations[p.pinned[q]].index.Some?
    && backendId in PoolIds(p.generations[p.pinned[q]].cfg.pools) && upstream != ""
  }

  ghost function Step(lib: Library, digest: Digest, s: State, e: Event): State {
    if e.r >= |s.replicas| then s
    else
      var p := s.replicas[e.r];
      var s' := s.(replicas := s.replicas[e.r := Local(lib, digest, p, e)]);
      match e
      case StoreHandler(_, g) =>
        if !p.storing && Loadable(lib, digest, g) then s'.(ever := s.ever + PoolIds(g.cfg.pools)) else s'
      case Mint(_, q, backendId, upstream) =>
        if CanMint(p, q, backendId, upstream) && Encode(Token(digest, backendId), upstream).Some? then
          s'.(issued := s.issued + {Issue(Encode(Token(digest, backendId), upstream).value, backendId, upstream)})
        else s'
      case _ => s'
  }

  ghost function Run(lib: Library, digest: Digest, s: State, events: seq<Event>): State {
    if events == [] then s
    else
      var n := |events| - 1;
      Step(lib, digest, Run(lib, digest, s, events[..n]), events[n])
  }

  lemma RunOne(lib: Library, digest: Digest, s: State, events: seq<Event>, e: Event)
    ensures Run(lib, digest, s, events + [e]) == Step(lib, digest, Run(lib, digest, s, events), e)
  {
    assert (events + [e])[..|events + [e]| - 1] == events;
  }

  /** The reports of one request, as steps. */
  function ReportsFrom(r: nat, q: nat, events: seq<HealthSpec.Event>): seq<Event> {
    if events == [] then [] else ReportsFrom(r, q, events[..|events| - 1]) + [Report(r, q, events[|events| - 1])]
  }

  lemma {:induction false} ReportsRun(
    lib: Library, digest: Digest, s: State, r: nat, q: nat, events: seq<HealthSpec.Event>)
    requires r < |s.replicas| && q in s.replicas[r].pinned
    requires s.replicas[r].pinned[q] < |s.replicas[r].managers| == |s.replicas[r].logs|
    ensures var p := s.replicas[r];
            Run(lib, digest, s, ReportsFrom(r, q, events)) ==
            s.(replicas := s.replicas[r := TellAll(p, p.pinned[q], events)])
  {
    var p := s.replicas[r];
    if events == [] {
      assert s.replicas[r := p] == s.replicas;
    } else {
      var n := |events| - 1;
      ReportsRun(lib, digest, s, r, q, events[..n]);
      RunOne(lib, digest, s, ReportsFrom(r, q, events[..n]), Report(r, q, events[n]));
      TellKeepsPins(p, p.pinned[q], events[..n]);
    }
  }

  lemma {:induction false} TellKeepsPins(p: Replica, g: nat, events: seq<HealthSpec.Event>)
    requires g < |p.managers| && g < |p.logs|
    ensures TellAll(p, g, events).pinned == p.pinned && TellAll(p, g, events).generations == p.generations
  {
    if events != [] {
      TellKeepsPins(p, g, events[..|events| - 1]);
    }
  }

  lemma {:induction false} RunConcat(lib: Library, digest: Digest, s: State, a: seq<Event>, b: seq<Event>)
    ensures Run(lib, digest, s, a + b) == Run(lib, digest, Run(lib, digest, s, a), b)
  {
    if b == [] {
      assert a + b == a;
    } else {
      var n := |b| - 1;
      assert a + b == a + b[..n] + [b[n]];
      RunOne(lib, digest, s, a + b[..n], b[n]);
      RunConcat(lib, digest, s, a, b[..n]);
    }
  }

  /** Every replica starts with one load, both references published, nothing in flight. */
  ghost predicate Started(lib: Library, digest: Digest, p: Replica) {
    && |p.generations| == 1 && Loadable(lib, digest, p.generations[0])
    && p.handler == 0 && p.health == 0 && !p.storing
    && p.managers == [InitialHealth(lib, p.generations[0])] && p.logs == [[]] && p.pinned == map[]
  }

  lemma StartsWith(lib: Library, digest: Digest, g: Generation)
    requires Loadable(lib, digest, g)
    ensures Started(lib, digest, Replica([g], 0, 0, false, [InitialHealth(lib, g)], [[]], map[]))
  {}

  ghost predicate Init(lib: Library, digest: Digest, s: State) {
    && (forall p <- s.replicas :: Started(lib, digest, p) && PoolIds(p.generations[0].cfg.pools) <= s.ever)
    && s.issued == {}
  }

  // ---- Invariant ----

  ghost predicate ReplicaOk(lib: Library, digest: Digest, p: Replica, ever: set<string>) {
    && |p.generations| == |p.managers| == |p.logs|
    && p.handler + 1 == |p.generations|
    && p.handler == p.health + (if p.storing then 1 else 0)
    && (forall q <- p.pinned :: p.pinned[q] <= p.handler)
    && (forall g | 0 <= g < |p.generations| :: GenerationOk(lib, digest, p.generations[g], ever))
    && (forall g | 0 <= g < |p.generations| ::
          p.managers[g] == HealthSpec.RunAll(InitialHealth(lib, p.generations[g]), p.logs[g]))
  }

  ghost predicate GenerationOk(lib: Library, digest: Digest, g: Generation, ever: set<string>) {
    Loadable(lib, digest, g) && PoolIds(g.cfg.pools) <= ever
  }

  ghost predicate IssueOk(digest: Digest, i: Issue, ever: set<string>) {
    && i.backendId in ever && i.backendId != "" && i.upstream != ""
    && Encode(Token(digest, i.backendId), i.upstream) == Some(i.publicId)
  }

  ghost predicate Inv(lib: Library, digest: Digest, s: State) {
    && (forall r | 0 <= r < |s.replicas| :: ReplicaOk(lib, digest, s.replicas[r], s.ever))
    && (forall i <- s.issued :: IssueOk(digest, i, s.ever))
  }

  lemma TellKeeps(lib: Library, digest: Digest, p: Replica, g: nat, e: HealthSpec.Event, ever: set<string>)
    requires ReplicaOk(lib, digest, p, ever) && g < |p.generations|
    ensures ReplicaOk(lib, digest, Tell(p, g, e), ever)
  {
    HealthSpec.RunAllOne(InitialHealth(lib, p.generations[g]), p.logs[g], e);
  }

  lemma StoreHandlerKeeps(lib: Library, digest: Digest, p: Replica, e: Event, ever: set<string>, ever': set<string>)
    requires ReplicaOk(lib, digest, p, ever) && ever <= ever' && e.StoreHandler?
    requires !p.storing && Loadable(lib, digest, e.g) ==> PoolIds(e.g.cfg.pools) <= ever'
    ensures ReplicaOk(lib, digest, Local(lib, digest, p, e), ever')
  {
    MoreIdsKeep(lib, digest, p, ever, ever');
    if !p.storing && Loadable(lib, digest, e.g) {
      Extended(lib, digest, p, e.g, ever');
    }
  }

  lemma Extended(lib: Library, digest: Digest, p: Replica, g: Generation, ever: set<string>)
    requires ReplicaOk(lib, digest, p, ever) && !p.storing && GenerationOk(lib, digest, g, ever)
    ensures ReplicaOk(lib, digest, WithGeneration(p, g, InitialHealth(lib, g)), ever)
  {
    var p' := WithGeneration(p, g, InitialHealth(lib, g));
    forall k | 0 <= k < |p'.generations|
      ensures GenerationOk(lib, digest, p'.generations[k], ever)
      ensures p'.managers[k] == HealthSpec.RunAll(InitialHealth(lib, p'.generations[k]), p'.logs[k])
    {
      if k < |p.generations| {
        assert p'.generations[k] == p.generations[k] && p'.managers[k] == p.managers[k] && p'.logs[k] == p.logs[k];
      }
    }
  }

  /** Steps that touch no manager. */
  lemma QuietKeeps(lib: Library, digest: Digest, p: Replica, e: Event, ever: set<string>)
    requires ReplicaOk(lib, digest, p, ever) && (e.ReloadFails? || e.StoreHealth? || e.Begin? || e.Mint? || e.End?)
    ensures ReplicaOk(lib, digest, Local(lib, digest, p, e), ever)
  {
    SameLoadsKeep(lib, digest, p, Local(lib, digest, p, e), ever);
  }

  lemma SameLoadsKeep(lib: Library, digest: Digest, p: Replica, p': Replica, ever: set<string>)
    requires ReplicaOk(lib, digest, p, ever)
    requires p'.generations == p.generations && p'.managers == p.managers && p'.logs == p.logs
    requires p'.handler == p.handler && p'.handler == p'.health + (if p'.storing then 1 else 0)
    requires forall q <- p'.pinned :: p'.pinned[q] <= p'.handler
    ensures ReplicaOk(lib, digest, p', ever)
  {}

  lemma LocalKeeps(lib: Library, digest: Digest, p: Replica, e: Event, ever: set<string>)
    requires ReplicaOk(lib, digest, p, ever) && !e.StoreHandler?
    ensures ReplicaOk(lib, digest, Local(lib, digest, p, e), ever)
  {
    if e.Report? {
      if e.q in p.pinned {
        TellKeeps(lib, digest, p, p.pinned[e.q], e.e, ever);
      }
    } else if e.ScrapePublished? {
      TellKeeps(lib, digest, p, p.health, HealthSpec.Scraped(e.at), ever);
    } else {
      QuietKeeps(lib, digest, p, e, ever);
    }
  }

  lemma MoreIdsKeep(lib: Library, digest: Digest, p: Replica, ever: set<string>, ever': set<string>)
    requires ReplicaOk(lib, digest, p, ever) && ever <= ever'
    ensures ReplicaOk(lib, digest, p, ever')
  {
    forall g | 0 <= g < |p.generations| ensures GenerationOk(lib, digest, p.generations[g], ever') {
      assert GenerationOk(lib, digest, p.generations[g], ever);
    }
  }

  lemma MintIsOk(
    lib: Library, digest: Digest, p: Replica, q: nat, backendId: string, upstream: string, ever: set<string>)
    requires ReplicaOk(lib, digest, p, ever) && CanMint(p, q, backendId, upstream)
    ensures backendId in ever && backendId != ""
  {
    var g := p.generations[p.pinned[q]];
    assert GenerationOk(lib, digest, g, ever);
    var pool :| pool in g.cfg.pools && pool.id == backendId;
    assert PoolOk(lib, pool);
  }

  /** Every step keeps the invariant. */
  lemma StepKeepsInv(lib: Library, digest: Digest, s: State, e: Event)
    requires Inv(lib, digest, s)
    ensures Inv(lib, digest, Step(lib, digest, s, e))
    ensures s.ever <= Step(lib, digest, s, e).ever && s.issued <= Step(lib, digest, s, e).issued
  {
    var s' := Step(lib, digest, s, e);
    if e.r < |s.replicas| {
      var p := s.replicas[e.r];
      forall r | 0 <= r < |s'.replicas| ensures ReplicaOk(lib, digest, s'.replicas[r], s'.ever) {
        if r != e.r {
          MoreIdsKeep(lib, digest, s.replicas[r], s.ever, s'.ever);
        } else if e.StoreHandler? {
          StoreHandlerKeeps(lib, digest, p, e, s.ever, s'.ever);
        } else {
          LocalKeeps(lib, digest, p, e, s.ever);
        }
      }
      forall i <- s'.issued ensures IssueOk(digest, i, s'.ever) {
        if i in s.issued {
          assert IssueOk(digest, i, s.ever);
        } else {
          MintIsOk(lib, digest, p, e.q, e.backendId, e.upstream, s.ever);
        }
      }
    }
  }

  lemma FreshManager(lib: Library, g: Generation)
    ensures HealthSpec.RunAll(InitialHealth(lib, g), []) == InitialHealth(lib, g)
  {}

  lemma FirstGeneration(lib: Library, digest: Digest, p: Replica, ever: set<string>)
    requires Started(lib, digest, p) && PoolIds(p.generations[0].cfg.pools) <= ever
    ensures p.generations == [p.generations[0]] && GenerationOk(lib, digest, p.generations[0], ever)
    ensures p.handler == p.health == 0 && !p.storing && p.pinned == map[]
    ensures p.managers == [InitialHealth(lib, p.generations[0])] && p.logs == [[]]
  {}

  lemma StartedOk(lib: Library, digest: Digest, p: Replica, ever: set<string>)
    requires Started(lib, digest, p) && PoolIds(p.generations[0].cfg.pools) <= ever
    ensures ReplicaOk(lib, digest, p, ever)
  {
    FirstGeneration(lib, digest, p, ever);
    FreshManager(lib, p.generations[0]);
  }

  lemma {:induction false} RunKeepsInv(lib: Library, digest: Digest, s: State, events: seq<Event>)
    requires Init(lib, digest, s)
    ensures Inv(lib, digest, Run(lib, digest, s, events))
  {
    if events == [] {
      forall r | 0 <= r < |s.replicas| ensures ReplicaOk(lib, digest, s.replicas[r], s.ever) {
        StartedOk(lib, digest, s.replicas[r], s.ever);
      }
    } else {
      var n := |events| - 1;
      RunKeepsInv(lib, digest, s, events[..n]);
      StepKeepsInv(lib, digest, Run(lib, digest, s, events[..n]), events[n]);
    }
  }

  // ---- Session affinity ----

  /** How generation `g` routes a public id; without an index it answers 503. */
  function RouteIn(g: Generation, publicId: string): Result<(BackendPool, string), int> {
    if g.index.None? then Err(503) else RouteSession(g.index.value, publicId)
  }

  lemma DistinctBelow(digest: Digest, ids: set<string>, ever: set<string>)
    requires TokensDistinct(digest, ever) && ids <= ever
    ensures TokensDistinct(digest, ids)
  {}

  /**
    Session affinity over whole runs: on every replica and in every generation
    it ever built, so in particular in the one a request is pinned to, an issued
    id reaches the pool of the backend that owns the session, with the upstream
    id recovered, or is answered 404 because that backend is not configured there.
   */
  lemma Affinity(lib: Library, digest: Digest, s0: State, events: seq<Event>, i: Issue, r: nat, g: nat)
    requires Init(lib, digest, s0)
    requires var s := Run(lib, digest, s0, events);
             && TokensDistinct(digest, s.ever)
             && i in s.issued && r < |s.replicas| && g < |s.replicas[r].generations|
    ensures var gen := Run(lib, digest, s0, events).replicas[r].generations[g];
            var out := RouteIn(gen, i.publicId);
            && (out.Ok? <==> i.backendId in PoolIds(gen.cfg.pools))
            && (out.Ok? ==> out.value.0 in gen.cfg.pools && out.value.0.id == i.backendId && out.value.1 == i.upstream)
            && (out.Err? ==> out.error == 404)
  {
    var s := Run(lib, digest, s0, events);
    RunKeepsInv(lib, digest, s0, events);
    var gen := s.replicas[r].generations[g];
    assert GenerationOk(lib, digest, gen, s.ever) && IssueOk(digest, i, s.ever);
    DistinctBelow(digest, PoolIds(gen.cfg.pools), s.ever);
    RouteIssuedId(digest, s.ever, gen.cfg.pools, gen.index.value, i.backendId, i.upstream);
  }

  /** The request in flight is pinned to a generation that its replica built. */
  lemma PinnedIsBuilt(lib: Library, digest: Digest, s0: State, events: seq<Event>, r: nat, q: nat)
    requires Init(lib, digest, s0)
    requires var s := Run(lib, digest, s0, events); r < |s.replicas| && q in s.replicas[r].pinned
    ensures var p := Run(lib, digest, s0, events).replicas[r]; p.pinned[q] < |p.generations|
  {
    RunKeepsInv(lib, digest, s0, events);
    var s := Run(lib, digest, s0, events);
    assert ReplicaOk(lib, digest, s.replicas[r], s.ever);
  }

  /** The token of an issued id names its owner's pool, or nothing, in the index a request in flight uses. */
  lemma OwnerInIndex(lib: Library, digest: Digest, s0: State, events: seq<Event>, i: Issue, r: nat, q: nat)
    requires Init(lib, digest, s0) && InFlight(Run(lib, digest, s0, events), digest, i, r, q)
    ensures var p := Run(lib, digest, s0, events).replicas[r];
            && p.pinned[q] < |p.generations| && p.generations[p.pinned[q]].index.Some?
            && var gen := p.generations[p.pinned[q]];
               var token := Token(digest, i.backendId);
               && '/' !in token && i.upstream != "" && Encode(token, i.upstream) == Some(i.publicId)
               && (token in gen.index.value <==> i.backendId in PoolIds(gen.cfg.pools))
               && (token in gen.index.value ==>
                     gen.index.value[token] in gen.cfg.pools && gen.index.value[token].id == i.backendId)
  {
    var s := Run(lib, digest, s0, events);
    PinnedIsBuilt(lib, digest, s0, events, r, q);
    RunKeepsInv(lib, digest, s0, events);
    var gen := s.replicas[r].generations[s.replicas[r].pinned[q]];
    assert GenerationOk(lib, digest, gen, s.ever) && IssueOk(digest, i, s.ever);
    DistinctBelow(digest, PoolIds(gen.cfg.pools), s.ever);
    TokenShape(digest, i.backendId);
    OwnerOfToken(gen.index.value, digest, i);
    Affinity(lib, digest, s0, events, i, r, s.replicas[r].pinned[q]);
  }

  /** A request in flight anywhere, while tokens of all ids ever configured are distinct and `i` has been issued. */
  ghost predicate InFlight(s: State, digest: Digest, i: Issue, r: nat, q: nat) {
    TokensDistinct(digest, s.ever) && i in s.issued && r < |s.replicas| && q in s.replicas[r].pinned
  }

  /** The index a request in flight routes by. */
  function IndexFor(p: Replica, q: nat): Option<TokenIndex> {
    if q in p.pinned && p.pinned[q] < |p.generations| then p.generations[p.pinned[q]].index else None
  }

  /** The pools a request in flight knows. */
  function PoolsFor(p: Replica, q: nat): seq<BackendPool> {
    if q in p.pinned && p.pinned[q] < |p.generations| then p.generations[p.pinned[q]].cfg.pools else []
  }

  /**
    Forwarded to the owner's pool as `path` unless the body is over the limit, or
    404 because the owner is not configured.
   */
  ghost predicate OwnerOrNotFound(
    pools: seq<BackendPool>, i: Issue, body: Body, out: Outcome, path: string, protocol: string)
  {
    if i.backendId !in PoolIds(pools) then out == Reject(404)
    else if body.TooLarge? then out == Reject(413)
    else out.Forward? && out.pool in pools && out.pool.id == i.backendId && out.path == path && out.protocol == protocol
  }

  /**
    From id to wire: a WebDriver follow-up under an issued id, handled by any
    request in flight on any replica, goes to the owner's pool at exactly
    `base/u r`, or is answered 404 where the owner is not configured. Refused
    are only an upstream id that starts with a slash and an over-limit body.
   */
  lemma FollowUpReachesOwner(
    lib: Library, digest: Digest, s0: State, events: seq<Event>, i: Issue, r: nat, q: nat,
    base: string, rest: string, body: Body)
    requires Init(lib, digest, s0) && InFlight(Run(lib, digest, s0, events), digest, i, r, q)
    requires (base == "/session" || base == "/wd/hub/session") && IsRemainder(rest)
    ensures var p := Run(lib, digest, s0, events).replicas[r];
            && IndexFor(p, q).Some? && i.upstream != ""
            && var out := WithBody(WebDriverTarget(IndexFor(p, q).value, base + "/" + i.publicId + rest), body);
               if i.upstream[0] == '/' then out == Reject(400)
               else OwnerOrNotFound(PoolsFor(p, q), i, body, out, base + "/" + i.upstream + rest, WEBDRIVER)
  {
    OwnerInIndex(lib, digest, s0, events, i, r, q);
    var index := IndexFor(Run(lib, digest, s0, events).replicas[r], q).value;
    WebDriverPathInversion(index, base, Token(digest, i.backendId), i.upstream, rest);
  }

  /**
    The same for a side endpoint under an issued id, whatever the upstream id:
    refused are just those whose first segment is empty or is the suffix of the
    prefix, and over-limit bodies.
   */
  lemma SideFollowUpReachesOwner(
    lib: Library, digest: Digest, s0: State, events: seq<Event>, i: Issue, r: nat, q: nat,
    prefix: string, rest: string, body: Body)
    requires Init(lib, digest, s0) && InFlight(Run(lib, digest, s0, events), digest, i, r, q) && IsRemainder(rest)
    ensures var p := Run(lib, digest, s0, events).replicas[r];
            && IndexFor(p, q).Some? && i.upstream != ""
            && var out := WithBody(SideTarget(IndexFor(p, q).value, prefix, i.publicId + rest), body);
               if i.upstream[0] == '/' || BareSuffix(prefix, FirstPathSegment(i.upstream).0) then out == Reject(400)
               else OwnerOrNotFound(
                 PoolsFor(p, q), i, body, out, SidePath(prefix, i.publicId, i.upstream, rest), SideProtocol(i.upstream))
  {
    OwnerInIndex(lib, digest, s0, events, i, r, q);
    var index := IndexFor(Run(lib, digest, s0, events).replicas[r], q).value;
    SidePathRewriting(index, prefix, Token(digest, i.backendId), i.upstream, rest);
  }

  lemma OwnerOfToken(index: TokenIndex, digest: Digest, i: Issue)
    requires i.backendId != "" && Encode(Token(digest, i.backendId), i.upstream) == Some(i.publicId)
    ensures var token := Token(digest, i.backendId);
            RouteSession(index, i.publicId) ==
            if token in index then Ok((index[token], i.upstream)) else Err(404)
  {
    DecodeEncode(Token(digest, i.backendId), i.upstream);
  }

  // ---- What issues ids ----

  /** The request is pinned to a generation that routes, and `pool` is one of its pools. */
  ghost predicate CanUse(s: State, r: nat, q: nat, pool: BackendPool) {
    r < |s.replicas| && IndexFor(s.replicas[r], q).Some? && pool in PoolsFor(s.replicas[r], q)
  }

  /** The step issues this id and does nothing else. */
  ghost predicate Issues(lib: Library, digest: Digest, s: State, r: nat, q: nat, i: Issue) {
    Step(lib, digest, s, Mint(r, q, i.backendId, i.upstream)) == s.(issued := s.issued + {i})
  }

  /** The id encodes its owner, which is one of the pools that the request knows. */
  ghost predicate Mintable(digest: Digest, p: Replica, q: nat, i: Issue) {
    && IndexFor(p, q).Some? && i.backendId in PoolIds(PoolsFor(p, q)) && i.upstream != ""
    && Encode(Token(digest, i.backendId), i.upstream) == Some(i.publicId)
  }

  lemma MintIssues(lib: Library, digest: Digest, s: State, r: nat, q: nat, i: Issue)
    requires r < |s.replicas| && Mintable(digest, s.replicas[r], q, i)
    ensures Issues(lib, digest, s, r, q, i)
  {
    assert s.replicas[r := s.replicas[r]] == s.replicas;
  }

  /** An id, once issued, is never forgotten. */
  lemma {:induction false} IssuedForGood(lib: Library, digest: Digest, s: State, events: seq<Event>)
    ensures s.issued <= Run(lib, digest, s, events).issued
  {
    if events != [] {
      IssuedForGood(lib, digest, s, events[..|events| - 1]);
    }
  }

  /** A new-session answer with an id, given under the generation the request is pinned to, is a mint step. */
  lemma CreatedIsMint(
    lib: Library, digest: Digest, s: State, r: nat, q: nat, pool: BackendPool,
    result: CreateSession.CreateResult, reply: CreateSession.Reply)
    requires CanUse(s, r, q, pool)
    requires CreateSession.Answers(result, reply, Token(digest, pool.id)) && result.Created?
    ensures var i := Issue(result.publicSessionId, pool.id, result.upstreamSessionId);
            Mintable(digest, s.replicas[r], q, i) && Issues(lib, digest, s, r, q, i)
  {
    EncodeDecode(result.publicSessionId);
    MintIssues(lib, digest, s, r, q, Issue(result.publicSessionId, pool.id, result.upstreamSessionId));
  }

  /** So is a Playwright upgrade. */
  lemma UpgradeIsMint(
    lib: Library, digest: Digest, s: State, r: nat, q: nat, pool: BackendPool, random: Digest16, publicId: string)
    requires CanUse(s, r, q, pool)
             && Playwright.MintedFor(digest, IndexFor(s.replicas[r], q).value, pool, random, publicId)
    ensures var i := Issue(publicId, pool.id, PLAYWRIGHT_PREFIX + HexEncode(random));
            Mintable(digest, s.replicas[r], q, i) && Issues(lib, digest, s, r, q, i)
  {
    MintIssues(lib, digest, s, r, q, Issue(publicId, pool.id, PLAYWRIGHT_PREFIX + HexEncode(random)));
  }

  // ---- Reload ----

  /** Handler and published health are the same generation, except between the two stores, where they differ by one. */
  lemma PublishedInStep(lib: Library, digest: Digest, s0: State, events: seq<Event>, r: nat)
    requires Init(lib, digest, s0) && r < |Run(lib, digest, s0, events).replicas|
    ensures var p := Run(lib, digest, s0, events).replicas[r];
            p.handler == p.health + (if p.storing then 1 else 0)
  {
    RunKeepsInv(lib, digest, s0, events);
    var s := Run(lib, digest, s0, events);
    assert ReplicaOk(lib, digest, s.replicas[r], s.ever);
  }

  /**
    A report from a request in flight touches the manager of its own generation on
    its own replica, and nothing else.
   */
  lemma ReportStaysHome(lib: Library, digest: Digest, s0: State, events: seq<Event>, e: Event)
    requires Init(lib, digest, s0) && e.Report?
    requires var s := Run(lib, digest, s0, events); e.r < |s.replicas| && e.q in s.replicas[e.r].pinned
    ensures var s := Run(lib, digest, s0, events);
            var s' := Step(lib, digest, s, e);
            var home := s.replicas[e.r].pinned[e.q];
            && |s'.replicas| == |s.replicas|
            && (forall r | 0 <= r < |s.replicas| && r != e.r :: s'.replicas[r] == s.replicas[r])
            && (forall g | 0 <= g < |s.replicas[e.r].managers| && g != home ::
                  s'.replicas[e.r].managers[g] == s.replicas[e.r].managers[g])
            && home < |s.replicas[e.r].managers|
            && s'.replicas[e.r].managers[home] == HealthSpec.ApplyAll(s.replicas[e.r].managers[home], e.e)
  {
    PinnedInRange(lib, digest, s0, events, e.r, e.q);
    ReportStep(lib, digest, Run(lib, digest, s0, events), e);
  }

  lemma PinnedInRange(lib: Library, digest: Digest, s0: State, events: seq<Event>, r: nat, q: nat)
    requires Init(lib, digest, s0)
    requires var s := Run(lib, digest, s0, events); r < |s.replicas| && q in s.replicas[r].pinned
    ensures var p := Run(lib, digest, s0, events).replicas[r]; p.pinned[q] < |p.managers| == |p.logs|
  {
    RunKeepsInv(lib, digest, s0, events);
    var s := Run(lib, digest, s0, events);
    assert ReplicaOk(lib, digest, s.replicas[r], s.ever);
  }

  lemma ReportStep(lib: Library, digest: Digest, s: State, e: Event)
    requires e.Report? && e.r < |s.replicas| && e.q in s.replicas[e.r].pinned
    requires s.replicas[e.r].pinned[e.q] < |s.replicas[e.r].managers| == |s.replicas[e.r].logs|
    ensures var home := s.replicas[e.r].pinned[e.q];
            Step(lib, digest, s, e) == s.(replicas := s.replicas[e.r := Tell(s.replicas[e.r], home, e.e)])
  {}

  /** Request `q` holds generation number `g` of replica `r`, which is `gen`. */
  predicate Holds(s: State, r: nat, q: nat, g: nat, gen: Generation) {
    && r < |s.replicas| && q in s.replicas[r].pinned && s.replicas[r].pinned[q] == g
    && g < |s.replicas[r].generations| && s.replicas[r].generations[g] == gen
  }

  lemma StepHolds(lib: Library, digest: Digest, s: State, e: Event, r: nat, q: nat, g: nat, gen: Generation)
    requires Holds(s, r, q, g, gen) && e != End(r, q)
    ensures Holds(Step(lib, digest, s, e), r, q, g, gen)
  {
    if e.r == r {
      var p, p' := s.replicas[r], Local(lib, digest, s.replicas[r], e);
      assert q in p'.pinned && p'.pinned[q] == g;
      assert g < |p'.generations| && p'.generations[g] == gen;
    }
  }

  /** A request keeps its generation, with the configuration it had, through anything but its own end. */
  lemma {:induction false} PinnedForLife(
    lib: Library, digest: Digest, s: State, events: seq<Event>, r: nat, q: nat, g: nat, gen: Generation)
    requires Holds(s, r, q, g, gen) && End(r, q) !in events
    ensures Holds(Run(lib, digest, s, events), r, q, g, gen)
  {
    if events != [] {
      var n := |events| - 1;
      PinnedForLife(lib, digest, s, events[..n], r, q, g, gen);
      StepHolds(lib, digest, Run(lib, digest, s, events[..n]), events[n], r, q, g, gen);
    }
  }

  /** Each generation's health is a function of its own reports and scrapes, starting fresh at its load. */
  lemma GenerationHealth(
    lib: Library, digest: Digest, s0: State, events: seq<Event>, r: nat, g: nat, id: string, now: int)
    requires Init(lib, digest, s0)
    requires var s := Run(lib, digest, s0, events); r < |s.replicas| && g < |s.replicas[r].generations|
    ensures var p := Run(lib, digest, s0, events).replicas[r];
            && g < |p.managers| && g < |p.logs|
            && var policies := Health.Policies(lib, p.generations[g].cfg.pools);
               HealthSpec.Available(p.managers[g], id, now) <==>
               id in policies &&
               !(policies[id].enabled && HealthSpec.CoolingAt(policies[id], HealthSpec.Project(p.logs[g], id), now))
  {
    RunKeepsInv(lib, digest, s0, events);
    var s := Run(lib, digest, s0, events);
    var p := s.replicas[r];
    assert ReplicaOk(lib, digest, p, s.ever);
    HealthSpec.AvailabilityFromHistory(Health.Policies(lib, p.generations[g].cfg.pools), p.logs[g], id, now);
  }
}
