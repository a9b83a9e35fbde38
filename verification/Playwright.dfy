/** Dispatch over the request path, and the Playwright upgrade that mints its own session id. */
module Playwright {
  import opened Wrappers
  import opened Strings
  import opened Config
  import opened SessionId
  import opened Proxy
  import opened ReverseProxy
  import Metrics
  import Routing
  import SideRoute

  // ---- Dispatch ----

  datatype Concern = NewSession | WebDriverSession | PlaywrightUpgrade | HostInfo | SideEndpoint | NotFound

  function Dispatch(path: string): Concern {
    if path == "/wd/hub/session" || path == "/session" then NewSession
    else if HasPrefix(path, "/wd/hub/session/") || HasPrefix(path, "/session/") then WebDriverSession
    else if HasPrefix(path, "/playwright/") then PlaywrightUpgrade
    else if HasPrefix(path, "/host/") then HostInfo
    else if SideRoute.IsSide(path) then SideEndpoint
    else NotFound
  }

  /** The paths each concern is registered for, whatever the order of the cases. */
  predicate Claims(c: Concern, path: string) {
    match c
    case NewSession => path == "/session" || path == "/wd/hub/session"
    case WebDriverSession => HasPrefix(path, "/session/") || HasPrefix(path, "/wd/hub/session/")
    case PlaywrightUpgrade => HasPrefix(path, "/playwright/")
    case HostInfo => HasPrefix(path, "/host/")
    case SideEndpoint => SideRoute.IsSide(path)
    case NotFound => false
  }

  /** No path is claimed twice, so the order of the cases never decides. */
  lemma DispatchIsClaim(c: Concern, path: string)
    requires c != NotFound
    ensures Dispatch(path) == c <==> Claims(c, path)
  {
    if SideRoute.IsSide(path) {
      SideHead(path);
    }
  }

  lemma SideHead(path: string)
    requires SideRoute.IsSide(path)
    ensures |path| > 2 && path[1] in "vdlch" && path[..3] != "/ho"
  {
    if SideRoute.IsHistorySettings(path) {
      assert SideRoute.HISTORY_SETTINGS_EXACT[1] == SideRoute.HISTORY_SETTINGS_PREFIX[1] == 'h';
      assert SideRoute.HISTORY_SETTINGS_EXACT[2] == SideRoute.HISTORY_SETTINGS_PREFIX[2] == 'i';
      assert path[2] == 'i';
    } else {
      var i :| 0 <= i < |SideRoute.PREFIXES| && HasPrefix(path, SideRoute.PREFIXES[i]);
      assert path[1] == SideRoute.PREFIXES[i][1];
      assert SideRoute.PREFIXES[i][1] in "vdlc";
    }
  }

  // ---- The upgrade ----

  const EXTERNAL_SESSION_ID := "x-selenwright-external-session-id"

  datatype Reply = Refused(status: int) | Upgrading(pool: BackendPool, path: string, publicId: string)

  /** The handler routes by the index that inverts its own tokens. */
  ghost predicate Wired(h: Handler, digest: Digest) {
    && h.selector.pools == h.pools && (forall p <- h.pools :: p.id != "")
    && IndexInverts(digest, h.pools, h.tokenToBackend)
  }

  /** The path asks for something that can be served now. */
  ghost predicate Placeable(h: Handler, path: string, view: Routing.View) {
    && Routing.ParsePlaywrightPath(path).Some?
    && Routing.Satisfiable(h.selector.catalog, h.pools, Routing.ParsePlaywrightPath(path).value, view)
  }

  /** The pool is the one that the draw picks for the path's request. */
  ghost predicate PlacedOn(h: Handler, path: string, view: Routing.View, draw: int -> int, pool: BackendPool) {
    && pool in h.pools && Routing.ParsePlaywrightPath(path).Some?
    && var req := Routing.ParsePlaywrightPath(path).value;
       Routing.Chosen(h.pools, req, view, draw(Routing.Bound(h.pools, req, view)), pool)
  }

  /**
    A placed upgrade carries a minted id that this very handler, and any other
    with the same tokens, routes back to the chosen pool.
   */
  ghost predicate Answered(
    h: Handler, digest: Digest, path: string, upgrade: bool, random: Option<Digest16>,
    view: Routing.View, draw: int -> int, reply: Reply)
  {
    && (reply.Upgrading? <==> upgrade && Placeable(h, path, view) && random.Some?)
    && (reply.Refused? ==> reply.status == if upgrade && Placeable(h, path, view) then 500 else 400)
    && (reply.Upgrading? ==>
          && reply.path == path && PlacedOn(h, path, view, draw, reply.pool)
          && MintedFor(digest, h.tokenToBackend, reply.pool, random.value, reply.publicId))
  }

  /** In the path's own terms: browser and version decide, and a path of any other form is refused. */
  lemma AnsweredByPath(
    h: Handler, digest: Digest, path: string, upgrade: bool, random: Option<Digest16>, view: Routing.View,
    draw: int -> int, reply: Reply, browser: string, version: string, tail: string)
    requires Answered(h, digest, path, upgrade, random, view, draw, reply)
    ensures Routing.PlaywrightForm(path, browser, version, tail) ==>
              var req := Routing.Request("playwright", browser, version, "", "", "");
              && (reply.Upgrading? <==>
                    upgrade && random.Some? && Routing.Satisfiable(h.selector.catalog, h.pools, req, view))
              && (reply.Upgrading? ==>
                    reply.path == path
                    && Routing.Chosen(h.pools, req, view, draw(Routing.Bound(h.pools, req, view)), reply.pool))
    ensures (forall b, v, t :: !Routing.PlaywrightForm(path, b, v, t)) ==> reply == Refused(400)
  {
    if Routing.PlaywrightForm(path, browser, version, tail) {
      Routing.PlaywrightPathAsks(path, browser, version, tail);
    }
    Routing.OnlyPlaywrightPathsAsk(path);
  }

  /** Everything before the first effect. `random` is `None` when the system has no randomness. */
  method Answer(
    h: Handler, digest: Digest, path: string, upgrade: bool, random: Option<Digest16>, now: int, draw: int -> int)
    returns (reply: Reply)
    requires Wired(h, digest) && (h.health != null ==> h.health.Valid()) && Routing.FairDraw(draw)
    ensures Answered(h, digest, path, upgrade, random, Routing.ViewOf(h.health, now), draw, reply)
  {
    var placed := PlaceUpgrade(h, path, upgrade, now, draw);
    if placed.None? {
      return Refused(400);
    }
    if random.None? {
      return Refused(500);
    }
    var publicId := Mint(digest, h.pools, h.tokenToBackend, placed.value, random.value);
    return Upgrading(placed.value, path, publicId);
  }

  /** The id goes upstream in a header of its own, and the start is counted once; a refused request leaves no trace. */
  method ProxyPlaywright(
    h: Handler, digest: Digest, path: string, upgrade: bool, header: Headers, random: Option<Digest16>,
    now: int, draw: int -> int, metrics: Metrics.Accumulator)
    returns (reply: Reply, header': Headers)
    requires Wired(h, digest) && (h.health != null ==> h.health.Valid())
    requires Routing.FairDraw(draw)
    modifies metrics`webSockets
    ensures Answered(h, digest, path, upgrade, random, old(Routing.ViewOf(h.health, now)), draw, reply)
    ensures reply.Refused? ==> header' == header && metrics.webSockets == old(metrics.webSockets)
    ensures reply.Upgrading? ==> header' == header["x-selenwright-external-session-id" := [reply.publicId]]
    ensures reply.Upgrading? ==>
              Metrics.OneMore(old(metrics.webSockets), metrics.webSockets, (reply.pool.id, "started"))
  {
    header' := header;
    reply := Answer(h, digest, path, upgrade, random, now, draw);
    if reply.Upgrading? {
      header' := header[EXTERNAL_SESSION_ID := [reply.publicId]];
      metrics.RecordWebSocketSession(reply.pool.id, "started");
    }
  }

  method PlaceUpgrade(h: Handler, path: string, upgrade: bool, now: int, draw: int -> int)
    returns (r: Option<BackendPool>)
    requires h.selector.pools == h.pools && (h.health != null ==> h.health.Valid()) && Routing.FairDraw(draw)
    ensures r.Some? <==> upgrade && Placeable(h, path, Routing.ViewOf(h.health, now))
    ensures r.Some? ==> PlacedOn(h, path, Routing.ViewOf(h.health, now), draw, r.value)
  {
    if !upgrade {
      return None;
    }
    var req := Routing.ParsePlaywrightPath(path);
    if req.None? {
      return None;
    }
    var placed := h.selector.Select(req.value, h.health, now, draw);
    if placed.Err? {
      return None;
    }
    var view := Routing.ViewOf(h.health, now);
    ChosenIsListed(h.pools, req.value, view, draw(Routing.Bound(h.pools, req.value, view)), placed.value);
    return Some(placed.value);
  }

  /** The id encodes the pool's token and the random bytes, and routes back to exactly these. */
  predicate MintedFor(digest: Digest, index: TokenIndex, pool: BackendPool, random: Digest16, publicId: string) {
    var u := PLAYWRIGHT_PREFIX + HexEncode(random);
    Encode(Token(digest, pool.id), u) == Some(publicId) && RouteSession(index, publicId) == Ok((pool, u))
  }

  /** An id minted for a pool routes back to it. */
  method Mint(digest: Digest, pools: seq<BackendPool>, index: TokenIndex, pool: BackendPool, random: Digest16)
    returns (publicId: string)
    requires IndexInverts(digest, pools, index) && pool in pools
    ensures MintedFor(digest, index, pool, random, publicId)
  {
    var token := TokenForBackend(digest, pool.id).value;
    var upstream := PLAYWRIGHT_PREFIX + HexEncode(random);
    TokenShape(digest, pool.id);
    DecodeEncode(token, upstream);
    publicId := Encode(token, upstream).value;
  }

  lemma ChosenIsListed(pools: seq<BackendPool>, req: Routing.Request, view: Routing.View, pick: int, pool: BackendPool)
    requires Routing.Chosen(pools, req, view, pick, pool)
    ensures pool in pools
  {
    Routing.CandidateMembers(pools, req, view);
  }

  /** Different random bytes, or different tokens, give different public ids. */
  lemma MintedIdsDiffer(digest: Digest, a: string, b: string, x: Digest16, y: Digest16)
    requires a != "" && b != ""
    requires Encode(Token(digest, a), PLAYWRIGHT_PREFIX + HexEncode(x)) ==
             Encode(Token(digest, b), PLAYWRIGHT_PREFIX + HexEncode(y))
    ensures Token(digest, a) == Token(digest, b) && x == y
  {
    var u, v := PLAYWRIGHT_PREFIX + HexEncode(x), PLAYWRIGHT_PREFIX + HexEncode(y);
    TokenShape(digest, a);
    TokenShape(digest, b);
    DecodeEncode(Token(digest, a), u);
    DecodeEncode(Token(digest, b), v);
    assert u[3..] == HexEncode(x) && v[3..] == HexEncode(y);
    HexInjective(x, y);
  }
}
