/**
  Whole requests on the real objects: each is a run of the step system, and the
  ids it hands out are among those issued.
 */
module Service {
  import opened Wrappers
  import opened Config
  import opened SessionId
  import opened Proxy
  import opened ReverseProxy
  import opened System
  import HealthSpec
  import Routing
  import Metrics
  import CreateSession
  import Playwright
  import Reload

  /** The steps of one request: it begins, reports, possibly hands out an id, and ends. */
  function RequestEvents(r: nat, q: nat, reports: seq<HealthSpec.Event>, minted: Option<Issue>): seq<Event> {
    [Begin(r, q)] + ReportsFrom(r, q, reports)
    + (if minted.Some? then [Mint(r, q, minted.value.backendId, minted.value.upstream)] else [])
    + [End(r, q)]
  }

  /** The replica while the request holds its load and has made its reports. */
  ghost function During(lib: Library, digest: Digest, p: Replica, q: nat, reports: seq<HealthSpec.Event>): Replica
    requires p.handler < |p.managers| == |p.logs|
  {
    TellAll(Local(lib, digest, p, Begin(0, q)), p.handler, reports)
  }

  lemma BeginAndReport(lib: Library, digest: Digest, s: State, r: nat, q: nat, reports: seq<HealthSpec.Event>)
    requires r < |s.replicas| && q !in s.replicas[r].pinned
    requires s.replicas[r].handler < |s.replicas[r].managers| == |s.replicas[r].logs|
    ensures Run(lib, digest, s, [Begin(r, q)] + ReportsFrom(r, q, reports)) ==
            s.(replicas := s.replicas[r := During(lib, digest, s.replicas[r], q, reports)])
  {
    var begin: seq<Event> := [Begin(r, q)];
    assert begin == [] + [Begin(r, q)];
    RunOne(lib, digest, s, [], Begin(r, q));
    ReportsRun(lib, digest, Step(lib, digest, s, Begin(r, q)), r, q, reports);
    RunConcat(lib, digest, s, begin, ReportsFrom(r, q, reports));
  }

  /** What the steps of one request add up to. */
  lemma RequestRun(
    lib: Library, digest: Digest, s: State, r: nat, q: nat, reports: seq<HealthSpec.Event>, minted: Option<Issue>)
    requires r < |s.replicas| && q !in s.replicas[r].pinned
    requires s.replicas[r].handler < |s.replicas[r].managers| == |s.replicas[r].logs|
    requires minted.Some? ==> Mintable(digest, During(lib, digest, s.replicas[r], q, reports), q, minted.value)
    ensures var p := During(lib, digest, s.replicas[r], q, reports);
            Run(lib, digest, s, RequestEvents(r, q, reports, minted)) ==
            s.(replicas := s.replicas[r := Local(lib, digest, p, End(0, q))],
               issued := s.issued + if minted.Some? then {minted.value} else {})
  {
    var told := [Begin(r, q)] + ReportsFrom(r, q, reports);
    BeginAndReport(lib, digest, s, r, q, reports);
    if minted.Some? {
      var mint := Mint(r, q, minted.value.backendId, minted.value.upstream);
      MintIssues(lib, digest, Run(lib, digest, s, told), r, q, minted.value);
      RunOne(lib, digest, s, told, mint);
      RunOne(lib, digest, s, told + [mint], End(r, q));
    } else {
      assert told + [] == told;
      RunOne(lib, digest, s, told, End(r, q));
    }
  }

  /** The state after a request, as far as the step system goes: one replica moved on, and at most one id was issued. */
  ghost predicate Follows(rh: Reload.ReloadingHandler, s: State, r: nat, events: seq<Event>, minted: Option<Issue>)
    reads rh
  {
    var s' := Run(rh.lib, rh.digest, s, events);
    && r < |s.replicas| && s'.replicas == s.replicas[r := rh.replica]
    && s'.issued == s.issued + (if minted.Some? then {minted.value} else {}) && s'.ever == s.ever
  }

  // ---- What a request loaded ----

  /** In the step system the request is pinned to just what it loaded. */
  predicate Loaded(p: Replica, q: nat, rt: Reload.Runtime) {
    q in p.pinned && IndexFor(p, q) == Reload.GenerationOf(rt).index && PoolsFor(p, q) == rt.cfg.pools
  }

  lemma HeldIsLoaded(rh: Reload.ReloadingHandler, q: nat, rt: Reload.Runtime)
    requires rh.Valid() && rh.Pins(q, rt)
    ensures Loaded(rh.replica, q, rt) && Reload.StateOf(rt) <= rh.Repr
  {
    assert rh.Owns(rh.built[rh.replica.pinned[q]]) && rh.Mirrors(rh.replica.pinned[q]);
  }

  lemma HeldServes(rh: Reload.ReloadingHandler, q: nat, rt: Reload.Runtime)
    requires rh.Valid() && rh.Pins(q, rt)
    ensures Reload.Serves(rh.digest, rt)
  {
    assert rt in rh.built;
  }

  /** A request begins: it holds the current load, and can use it. */
  method Begins(rh: Reload.ReloadingHandler, ghost q: nat) returns (rt: Reload.Runtime)
    requires rh.Valid() && q !in rh.replica.pinned
    modifies rh`replica
    ensures rh.Valid() && rh.Pins(q, rt) && Loaded(rh.replica, q, rt)
    ensures rh.current == Some(rt) && rh.currentHealth == rt.health && Reload.StateOf(rt) <= rh.Repr
    ensures var p := old(rh.replica);
            && p.handler < |p.managers| == |p.logs|
            && rh.replica == Local(rh.lib, rh.digest, p, Begin(0, q)) && rh.replica.pinned[q] == p.handler
  {
    var loaded := rh.Load(q);
    rt := loaded.value;
    HeldIsLoaded(rh, q, rt);
  }

  /** A request ends; what it did is a run of the step system. */
  ghost method Ends(
    rh: Reload.ReloadingHandler, s: State, r: nat, q: nat, reports: seq<HealthSpec.Event>, minted: Option<Issue>)
    returns (events: seq<Event>)
    requires rh.Valid() && r < |s.replicas| && q !in s.replicas[r].pinned
    requires s.replicas[r].handler < |s.replicas[r].managers| == |s.replicas[r].logs|
    requires rh.replica == During(rh.lib, rh.digest, s.replicas[r], q, reports)
    requires minted.Some? ==> Mintable(rh.digest, rh.replica, q, minted.value)
    modifies rh`replica
    ensures rh.Valid() && q !in rh.replica.pinned
    ensures events == RequestEvents(r, q, reports, minted) && Follows(rh, s, r, events, minted)
  {
    RequestRun(rh.lib, rh.digest, s, r, q, reports, minted);
    events := RequestEvents(r, q, reports, minted);
    rh.Finish(q);
  }

  // ---- New sessions ----

  /** What the client of a new-session request gets from this load: 503 without a handler. */
  ghost predicate SessionServed(
    digest: Digest, rt: Reload.Runtime, view: Routing.View, isPost: bool, body: Body, end: nat, draw: int -> int,
    reply: CreateSession.Reply, chosen: Result<BackendPool, int>, result: CreateSession.CreateResult)
  {
    match rt.handler
    case None => chosen == Err(503) && result == CreateSession.Refused(503)
    case Some(h) =>
      h.pools == rt.cfg.pools && Reload.Attempted(digest, h, view, isPost, body, end, draw, reply, chosen, result)
  }

  /** The id that a new-session request hands out, if any. */
  function IssueOf(chosen: Result<BackendPool, int>, result: CreateSession.CreateResult): Option<Issue> {
    if chosen.Ok? && result.Created? then Some(Issue(result.publicSessionId, chosen.value.id, result.upstreamSessionId))
    else None
  }

  method Answer(
    rh: Reload.ReloadingHandler, rt: Reload.Runtime, ghost q: nat, isPost: bool, body: Body, end: nat,
    draw: int -> int, selectedAt: int, reply: CreateSession.Reply, repliedAt: int, refusedAt: int, seconds: real)
    returns (result: CreateSession.CreateResult, chosen: Result<BackendPool, int>)
    requires rh.Valid() && rh.Pins(q, rt) && Loaded(rh.replica, q, rt) && Routing.FairDraw(draw)
    modifies rh`replica, rt.health, rt.health.backends.Values, CreateSession.MetricsFrame(rh.metrics)
    ensures rh.Valid() && Loaded(rh.replica, q, rt)
    ensures SessionServed(
              rh.digest, rt, old(Routing.ViewOf(rt.health, selectedAt)), isPost, body, end, draw, reply, chosen, result)
    ensures rh.replica == TellAll(
              old(rh.replica), old(rh.replica).pinned[q],
              Reload.AttemptReports(rh.digest, chosen, reply, repliedAt, refusedAt))
    ensures rh.metrics.proxy.log == old(rh.metrics.proxy.log) + Reload.AttemptRecords(chosen, reply, seconds)
  {
    if rt.handler.None? {
      return CreateSession.Refused(503), Err(503);
    }
    HeldServes(rh, q, rt);
    result, chosen := rh.Attempt(
      rt, q, rt.handler.value, isPost, body, end, draw, selectedAt, reply, repliedAt, refusedAt, seconds);
    TellKeepsPins(
      old(rh.replica), old(rh.replica).pinned[q],
      Reload.AttemptReports(rh.digest, chosen, reply, repliedAt, refusedAt));
  }

  /** An id that was handed out can be minted while the request holds its load. */
  lemma ServedIsMintable(
    lib: Library, digest: Digest, p: Replica, q: nat, rt: Reload.Runtime, view: Routing.View, isPost: bool, body: Body,
    end: nat, draw: int -> int, reply: CreateSession.Reply, chosen: Result<BackendPool, int>,
    result: CreateSession.CreateResult)
    requires SessionServed(digest, rt, view, isPost, body, end, draw, reply, chosen, result) && Loaded(p, q, rt)
    ensures result.Created? ==> IssueOf(chosen, result).Some? && Mintable(digest, p, q, IssueOf(chosen, result).value)
  {
    if result.Created? {
      CreatedIsMint(lib, digest, State([p], {}, {}), 0, q, chosen.value, result, reply);
    }
  }

  /**
    A new-session request, from the load it begins on to its end. It holds the
    current load throughout, is answered as that load decides, and is a run of
    the step system that issues exactly the id the client gets.
   */
  method NewSession(
    rh: Reload.ReloadingHandler, ghost s: State, ghost r: nat, ghost q: nat, isPost: bool, body: Body, end: nat,
    draw: int -> int, selectedAt: int, reply: CreateSession.Reply, repliedAt: int, refusedAt: int, seconds: real)
    returns (
      result: CreateSession.CreateResult, chosen: Result<BackendPool, int>, rt: Reload.Runtime,
      ghost events: seq<Event>)
    requires rh.Valid() && r < |s.replicas| && s.replicas[r] == rh.replica && q !in rh.replica.pinned
    requires Routing.FairDraw(draw)
    modifies rh`replica, rh.Repr, CreateSession.MetricsFrame(rh.metrics)
    ensures rh.Valid() && q !in rh.replica.pinned && Some(rt) == old(rh.current)
    ensures SessionServed(
              rh.digest, rt, old(Routing.ViewOf(rh.currentHealth, selectedAt)),
              isPost, body, end, draw, reply, chosen, result)
    ensures events == RequestEvents(
                        r, q, Reload.AttemptReports(rh.digest, chosen, reply, repliedAt, refusedAt),
                        IssueOf(chosen, result))
    ensures Follows(rh, s, r, events, IssueOf(chosen, result))
    ensures result.Created? ==> chosen.Ok? && chosen.value in rt.cfg.pools && IssueOf(chosen, result).Some?
    ensures rh.metrics.proxy.log == old(rh.metrics.proxy.log) + Reload.AttemptRecords(chosen, reply, seconds)
  {
    ghost var view := Routing.ViewOf(rh.currentHealth, selectedAt);
    rt, result, chosen := SessionBegun(
      rh, q, isPost, body, end, draw, selectedAt, reply, repliedAt, refusedAt, seconds);
    ghost var reports := Reload.AttemptReports(rh.digest, chosen, reply, repliedAt, refusedAt);
    ServedIsMintable(rh.lib, rh.digest, rh.replica, q, rt, view, isPost, body, end, draw, reply, chosen, result);
    events := Ends(rh, s, r, q, reports, IssueOf(chosen, result));
  }

  /** Everything but the end of the request. */
  method SessionBegun(
    rh: Reload.ReloadingHandler, ghost q: nat, isPost: bool, body: Body, end: nat,
    draw: int -> int, selectedAt: int, reply: CreateSession.Reply, repliedAt: int, refusedAt: int, seconds: real)
    returns (rt: Reload.Runtime, result: CreateSession.CreateResult, chosen: Result<BackendPool, int>)
    requires rh.Valid() && q !in rh.replica.pinned && Routing.FairDraw(draw)
    modifies rh`replica, rh.Repr, CreateSession.MetricsFrame(rh.metrics)
    ensures rh.Valid() && Some(rt) == old(rh.current)
    ensures SessionServed(
              rh.digest, rt, old(Routing.ViewOf(rh.currentHealth, selectedAt)),
              isPost, body, end, draw, reply, chosen, result)
    ensures Loaded(rh.replica, q, rt)
    ensures var p := old(rh.replica);
            && p.handler < |p.managers| == |p.logs|
            && rh.replica == During(
                 rh.lib, rh.digest, p, q, Reload.AttemptReports(rh.digest, chosen, reply, repliedAt, refusedAt))
    ensures rh.metrics.proxy.log == old(rh.metrics.proxy.log) + Reload.AttemptRecords(chosen, reply, seconds)
  {
    rt := Begins(rh, q);
    result, chosen := Answer(rh, rt, q, isPost, body, end, draw, selectedAt, reply, repliedAt, refusedAt, seconds);
  }

  // ---- Playwright ----

  /** What the client of an upgrade gets from this load. */
  ghost predicate UpgradeServed(
    digest: Digest, rt: Reload.Runtime, view: Routing.View, path: string, upgrade: bool, random: Option<Digest16>,
    draw: int -> int, reply: Playwright.Reply)
  {
    match rt.handler
    case None => reply == Playwright.Refused(503)
    case Some(h) => Playwright.Answered(h, digest, path, upgrade, random, view, draw, reply) && h.pools == rt.cfg.pools
  }

  function UpgradeIssue(reply: Playwright.Reply, random: Option<Digest16>): Option<Issue> {
    if reply.Upgrading? && random.Some? then
      Some(Issue(reply.publicId, reply.pool.id, PLAYWRIGHT_PREFIX + HexEncode(random.value)))
    else None
  }

  lemma UpgradedIsMintable(
    lib: Library, digest: Digest, p: Replica, q: nat, rt: Reload.Runtime, view: Routing.View,
    path: string, upgrade: bool, random: Option<Digest16>, draw: int -> int, reply: Playwright.Reply)
    requires UpgradeServed(digest, rt, view, path, upgrade, random, draw, reply) && Loaded(p, q, rt)
    ensures reply.Upgrading? ==>
              UpgradeIssue(reply, random).Some? && Mintable(digest, p, q, UpgradeIssue(reply, random).value)
  {
    if reply.Upgrading? {
      UpgradeIsMint(lib, digest, State([p], {}, {}), 0, q, reply.pool, random.value, reply.publicId);
    }
  }

  /**
    A Playwright upgrade, from the load it begins on to the hand-over to the
    upstream: answered as that load decides, and a run of the step system that
    reports nothing and issues exactly the id the client gets.
   */
  method PlaywrightSession(
    rh: Reload.ReloadingHandler, ghost s: State, ghost r: nat, ghost q: nat, path: string, upgrade: bool,
    header: Headers,
    random: Option<Digest16>, now: int, draw: int -> int)
    returns (reply: Playwright.Reply, header': Headers, rt: Reload.Runtime, ghost events: seq<Event>)
    requires rh.Valid() && r < |s.replicas| && s.replicas[r] == rh.replica && q !in rh.replica.pinned
    requires Routing.FairDraw(draw)
    modifies rh`replica, rh.metrics`webSockets
    ensures rh.Valid() && q !in rh.replica.pinned && Some(rt) == old(rh.current)
    ensures UpgradeServed(rh.digest, rt, old(Routing.ViewOf(rh.currentHealth, now)), path, upgrade, random, draw, reply)
    ensures events == RequestEvents(r, q, [], UpgradeIssue(reply, random))
    ensures Follows(rh, s, r, events, UpgradeIssue(reply, random))
    ensures reply.Upgrading? ==>
              && reply.pool in rt.cfg.pools && UpgradeIssue(reply, random).Some?
              && header' == header[Playwright.EXTERNAL_SESSION_ID := [reply.publicId]]
              && Metrics.OneMore(old(rh.metrics.webSockets), rh.metrics.webSockets, (reply.pool.id, "started"))
    ensures reply.Refused? ==> header' == header && rh.metrics.webSockets == old(rh.metrics.webSockets)
  {
    ghost var view := Routing.ViewOf(rh.currentHealth, now);
    rt, reply, header' := UpgradeBegun(rh, q, path, upgrade, header, random, now, draw);
    UpgradedIsMintable(rh.lib, rh.digest, rh.replica, q, rt, view, path, upgrade, random, draw, reply);
    events := Ends(rh, s, r, q, [], UpgradeIssue(reply, random));
  }

  method UpgradeBegun(
    rh: Reload.ReloadingHandler, ghost q: nat, path: string, upgrade: bool, header: Headers,
    random: Option<Digest16>, now: int, draw: int -> int)
    returns (rt: Reload.Runtime, reply: Playwright.Reply, header': Headers)
    requires rh.Valid() && q !in rh.replica.pinned && Routing.FairDraw(draw)
    modifies rh`replica, rh.metrics`webSockets
    ensures rh.Valid() && Some(rt) == old(rh.current)
    ensures UpgradeServed(rh.digest, rt, old(Routing.ViewOf(rh.currentHealth, now)), path, upgrade, random, draw, reply)
    ensures Loaded(rh.replica, q, rt)
    ensures reply.Upgrading? ==>
              && header' == header[Playwright.EXTERNAL_SESSION_ID := [reply.publicId]]
              && Metrics.OneMore(old(rh.metrics.webSockets), rh.metrics.webSockets, (reply.pool.id, "started"))
    ensures reply.Refused? ==> header' == header && rh.metrics.webSockets == old(rh.metrics.webSockets)
    ensures var p := old(rh.replica);
            p.handler < |p.managers| == |p.logs| && rh.replica == During(rh.lib, rh.digest, p, q, [])
  {
    rt := Begins(rh, q);
    if rt.handler.None? {
      return rt, Playwright.Refused(503), header;
    }
    HeldServes(rh, q, rt);
    reply, header' := rh.Upgrade(rt, q, rt.handler.value, path, upgrade, header, random, now, draw);
  }

  // ---- Follow-ups ----

  /** Where a WebDriver follow-up goes from this load. */
  function Routed(rt: Reload.Runtime, path: string, body: Body): Outcome {
    match rt.handler
    case None => Reject(503)
    case Some(h) => WithBody(WebDriverTarget(h.tokenToBackend, path), body)
  }

  function FollowUpReports(out: Outcome, end: CreateSession.Proxied, at: int): seq<HealthSpec.Event> {
    if out.Forward? then CreateSession.ProxiedReports(end, out.pool.id, at) else []
  }

  /**
    A WebDriver follow-up, from the load it begins on to its end: routed by that
    load whatever its health, and reported to that load's manager if it went out.
   */
  method FollowUp(
    rh: Reload.ReloadingHandler, ghost s: State, ghost r: nat, ghost q: nat, path: string, body: Body,
    end: CreateSession.Proxied, at: int, seconds: real)
    returns (out: Outcome, rt: Reload.Runtime, ghost events: seq<Event>)
    requires rh.Valid() && r < |s.replicas| && s.replicas[r] == rh.replica && q !in rh.replica.pinned
    modifies rh`replica, rh.Repr, CreateSession.MetricsFrame(rh.metrics)
    ensures rh.Valid() && q !in rh.replica.pinned && Some(rt) == old(rh.current)
    ensures out == Routed(rt, path, body)
    ensures Loaded(Step(rh.lib, rh.digest, s, Begin(r, q)).replicas[r], q, rt)
    ensures events == RequestEvents(r, q, FollowUpReports(out, end, at), None) && Follows(rh, s, r, events, None)
    ensures rh.metrics.proxy.log == old(rh.metrics.proxy.log) +
              if out.Forward? then CreateSession.ProxiedRecords(end, WEBDRIVER, out.pool.id, seconds) else []
  {
    out, rt := FollowUpBegun(rh, q, path, body, end, at, seconds);
    events := Ends(rh, s, r, q, FollowUpReports(out, end, at), None);
  }

  method FollowUpBegun(
    rh: Reload.ReloadingHandler, ghost q: nat, path: string, body: Body, end: CreateSession.Proxied, at: int,
    seconds: real)
    returns (out: Outcome, rt: Reload.Runtime)
    requires rh.Valid() && q !in rh.replica.pinned
    modifies rh`replica, rh.Repr, CreateSession.MetricsFrame(rh.metrics)
    ensures rh.Valid() && Some(rt) == old(rh.current) && out == Routed(rt, path, body)
    ensures Loaded(Local(rh.lib, rh.digest, old(rh.replica), Begin(0, q)), q, rt)
    ensures var p := old(rh.replica);
            && p.handler < |p.managers| == |p.logs|
            && rh.replica == During(rh.lib, rh.digest, p, q, FollowUpReports(out, end, at))
    ensures rh.metrics.proxy.log == old(rh.metrics.proxy.log) +
              if out.Forward? then CreateSession.ProxiedRecords(end, WEBDRIVER, out.pool.id, seconds) else []
  {
    rt := Begins(rh, q);
    if rt.handler.None? {
      out := Reject(503);
    } else {
      out := WithBody(WebDriverTarget(rt.handler.value.tokenToBackend, path), body);
    }
    if out.Forward? {
      rh.Relay(rt, q, WEBDRIVER, out.pool.id, end, at, seconds);
    }
  }

  /**
    From the step system down to the object: served by any replica, after any
    run, a follow-up under an issued id goes to the owner's pool at exactly
    `base/u r` or gets 404 where the owner is not configured.
   */
  lemma ServedFollowUpReachesOwner(
    lib: Library, digest: Digest, s0: State, events: seq<Event>, i: Issue, r: nat, q: nat, rt: Reload.Runtime,
    base: string, rest: string, body: Body)
    requires Init(lib, digest, s0) && (base == "/session" || base == "/wd/hub/session") && IsRemainder(rest)
    requires var s := Run(lib, digest, s0, events);
             && TokensDistinct(digest, s.ever) && i in s.issued && r < |s.replicas| && q !in s.replicas[r].pinned
             && Loaded(Step(lib, digest, s, Begin(r, q)).replicas[r], q, rt)
    ensures var out := Routed(rt, base + "/" + i.publicId + rest, body);
            && i.upstream != ""
            && if i.upstream[0] == '/' then out == Reject(400)
               else OwnerOrNotFound(rt.cfg.pools, i, body, out, base + "/" + i.upstream + rest, WEBDRIVER)
  {
    RunOne(lib, digest, s0, events, Begin(r, q));
    FollowUpReachesOwner(lib, digest, s0, events + [Begin(r, q)], i, r, q, base, rest, body);
  }
}
