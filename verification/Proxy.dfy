/** The request handler's routing: token index, session ids in paths and bodies, side endpoints. */
module Proxy {
  import opened Wrappers
  import opened Strings
  import opened Config
  import opened Json
  import opened SessionId
  import Health
  import Routing
  import SideRoute

  // ---- The token index ----

  type TokenIndex = map<string, BackendPool>

  datatype HandlerError = InvalidConfig(error: ConfigError) | TokenCollision(index: nat)

  /** The index inverts the token function on the configured pools, and holds nothing else. */
  ghost predicate IndexInverts(digest: Digest, pools: seq<BackendPool>, index: TokenIndex) {
    && (forall p <- pools :: p.id != "" && Token(digest, p.id) in index && index[Token(digest, p.id)] == p)
    && (forall t <- index :: index[t] in pools && t == Token(digest, index[t].id))
  }

  function Token(digest: Digest, backendId: string): string {
    HexEncode(digest(backendId))
  }

  ghost predicate TokensDistinct(digest: Digest, ids: set<string>) {
    forall a <- ids, b <- ids | a != b :: Token(digest, a) != Token(digest, b)
  }

  function PoolIds(pools: seq<BackendPool>): set<string> {
    set p <- pools :: p.id
  }

  /** What `NewHandler` keeps; nothing in it changes while it serves. */
  class Handler {
    const selector: Routing.Selector
    const pools: seq<BackendPool>
    const tokenToBackend: TokenIndex
    const health: Health.Manager?

    constructor (
      selector: Routing.Selector, pools: seq<BackendPool>, tokenToBackend: TokenIndex, health: Health.Manager?)
      ensures this.selector == selector && this.pools == pools
      ensures this.tokenToBackend == tokenToBackend && this.health == health
    {
      this.selector, this.pools, this.tokenToBackend, this.health := selector, pools, tokenToBackend, health;
    }
  }

  /** Fills the index; stops at the first pool whose token is taken. */
  method IndexTokens(digest: Digest, pools: seq<BackendPool>) returns (index: TokenIndex, collision: Option<nat>)
    requires DistinctIds(pools) && forall p <- pools :: p.id != ""
    ensures collision.None? <==> TokensDistinct(digest, PoolIds(pools))
    ensures collision.None? ==> IndexInverts(digest, pools, index)
  {
    index := map[];
    for i := 0 to |pools|
      invariant Indexed(digest, pools, i, index)
    {
      var token := TokenForBackend(digest, pools[i].id).value;
      if token in index {
        TakenToken(digest, pools, i, index);
        return index, Some(i);
      }
      index := index[token := pools[i]];
    }
    AllIndexed(digest, pools, index);
    return index, None;
  }

  /** The index of the first `n` pools. */
  ghost predicate Indexed(digest: Digest, pools: seq<BackendPool>, n: nat, index: TokenIndex)
    requires n <= |pools|
  {
    && (forall t <- index :: exists k :: 0 <= k < n && index[t] == pools[k] && t == Token(digest, pools[k].id))
    && (forall k | 0 <= k < n :: Token(digest, pools[k].id) in index && index[Token(digest, pools[k].id)] == pools[k])
  }

  lemma TakenToken(digest: Digest, pools: seq<BackendPool>, i: nat, index: TokenIndex)
    requires DistinctIds(pools) && i < |pools| && Indexed(digest, pools, i, index)
    requires Token(digest, pools[i].id) in index
    ensures !TokensDistinct(digest, PoolIds(pools))
  {
    var k :| 0 <= k < i && Token(digest, pools[i].id) == Token(digest, pools[k].id);
    assert pools[i] in pools && pools[k] in pools && pools[k].id != pools[i].id;
    assert pools[i].id in PoolIds(pools) && pools[k].id in PoolIds(pools);
  }

  lemma AllIndexed(digest: Digest, pools: seq<BackendPool>, index: TokenIndex)
    requires (forall p <- pools :: p.id != "") && Indexed(digest, pools, |pools|, index)
    ensures TokensDistinct(digest, PoolIds(pools)) && IndexInverts(digest, pools, index)
  {
    forall p <- pools ensures Token(digest, p.id) in index && index[Token(digest, p.id)] == p {
      var i :| 0 <= i < |pools| && pools[i] == p;
    }
    forall a <- PoolIds(pools), b <- PoolIds(pools) | a != b ensures Token(digest, a) != Token(digest, b) {
      var p :| p in pools && p.id == a;
      var q :| q in pools && q.id == b;
      assert index[Token(digest, a)] == p && index[Token(digest, b)] == q;
    }
  }

  /** Succeeds exactly on valid configurations without a token collision. */
  method NewHandler(lib: Library, digest: Digest, cfg: Config, health: Health.Manager?)
    returns (r: Result<Handler, HandlerError>)
    ensures r.Ok? <==> ValidConfig(lib, cfg) && TokensDistinct(digest, PoolIds(cfg.pools))
    ensures r.Ok? ==> fresh(r.value) && r.value.pools == cfg.pools && r.value.health == health
    ensures r.Ok? ==> r.value.selector.pools == cfg.pools && r.value.selector.catalog == cfg.catalog
    ensures r.Ok? ==> IndexInverts(digest, cfg.pools, r.value.tokenToBackend)
    ensures r.Err? && r.error.InvalidConfig? ==> FirstViolation(lib, cfg, r.error.error)
  {
    var invalid := Validate(lib, cfg);
    if invalid.Some? {
      return Err(InvalidConfig(invalid.value));
    }
    var index, collision := IndexTokens(digest, cfg.pools);
    if collision.Some? {
      return Err(TokenCollision(collision.value));
    }
    var selector := new Routing.Selector(cfg.catalog, cfg.pools);
    var handler := new Handler(selector, cfg.pools, index, health);
    return Ok(handler);
  }

  /** Selector, health map and token index speak of exactly the same backends. */
  lemma SameBackends(lib: Library, digest: Digest, pools: seq<BackendPool>, index: TokenIndex)
    requires DistinctIds(pools) && IndexInverts(digest, pools, index)
    ensures Health.Policies(lib, pools).Keys == PoolIds(pools)
    ensures forall p <- pools :: Health.Policies(lib, pools)[p.id] == Health.PolicyOf(lib, p)
    ensures (set t <- index :: index[t].id) == PoolIds(pools)
  {
    forall p <- pools ensures Health.Policies(lib, pools)[p.id] == Health.PolicyOf(lib, p) {
      var i :| 0 <= i < |pools| && pools[i] == p;
      Health.PolicyOfPool(lib, pools, i);
    }
    IndexIds(digest, pools, index);
  }

  lemma IndexIds(digest: Digest, pools: seq<BackendPool>, index: TokenIndex)
    requires IndexInverts(digest, pools, index)
    ensures (set t <- index :: index[t].id) == PoolIds(pools)
  {
    var ids := set t <- index :: index[t].id;
    forall id <- PoolIds(pools) ensures id in ids {
      var p :| p in pools && p.id == id;
      assert Token(digest, p.id) in index;
    }
  }

  // ---- Routing a public id ----

  datatype Outcome = Forward(pool: BackendPool, path: string, protocol: Protocol) | Reject(status: int)

  /** A malformed id is 400, an unknown token 404; health plays no part. */
  function RouteSession(index: TokenIndex, publicSessionId: string): Result<(BackendPool, string), int> {
    match Decode(publicSessionId)
    case None => Err(400)
    case Some(parts) =>
      if parts.routeToken in index then Ok((index[parts.routeToken], parts.upstreamSessionId)) else Err(404)
  }

  /** An id issued for a backend reaches that backend's pool with its upstream id, or 404 where it is not configured. */
  lemma RouteIssuedId(
    digest: Digest, ids: set<string>, pools: seq<BackendPool>, index: TokenIndex, backendId: string, upstream: string)
    requires TokensDistinct(digest, ids) && backendId in ids && PoolIds(pools) <= ids && backendId != ""
    requires IndexInverts(digest, pools, index) && upstream != ""
    ensures Encode(Token(digest, backendId), upstream).Some?
    ensures var r := RouteSession(index, Encode(Token(digest, backendId), upstream).value);
            && (r.Ok? <==> backendId in PoolIds(pools))
            && (r.Ok? ==> r.value.0 in pools && r.value.0.id == backendId && r.value.1 == upstream)
            && (r.Err? ==> r.error == 404)
  {
    var token := Token(digest, backendId);
    TokenShape(digest, backendId);
    DecodeEncode(token, upstream);
    if token in index {
      assert index[token] in pools;
      assert index[token].id in ids;
    }
  }

  // ---- WebDriver follow-ups ----

  function FirstPathSegment(path: string): (string, string) {
    match Cut(path, '/')
    case None => (path, "")
    case Some((head, tail)) => (head, "/" + tail)
  }

  function SplitWebDriverSessionPath(path: string): Option<(string, string, string)> {
    if HasPrefix(path, "/wd/hub/session/") then SplitAfter(path, "/wd/hub/session/")
    else if HasPrefix(path, "/session/") then SplitAfter(path, "/session/")
    else None
  }

  function SplitAfter(path: string, prefix: string): Option<(string, string, string)> {
    var rest := TrimPrefix(path, prefix);
    if rest == "" then None
    else
      var (session, remainder) := FirstPathSegment(rest);
      Some((TrimSuffix(prefix, "/"), session, remainder))
  }

  /** Where a follow-up is sent, its body apart. */
  function WebDriverTarget(index: TokenIndex, path: string): Outcome {
    match SplitWebDriverSessionPath(path)
    case None => Reject(400)
    case Some((base, session, remainder)) =>
      match RouteSession(index, session)
      case Err(status) => Reject(status)
      case Ok((pool, upstream)) => Forward(pool, base + "/" + upstream + remainder, WEBDRIVER)
  }

  /** A path that names no session is malformed. */
  lemma NoSessionNamed(index: TokenIndex, path: string)
    ensures !HasPrefix(path, "/session/") && !HasPrefix(path, "/wd/hub/session/") ==>
              WebDriverTarget(index, path) == Reject(400)
    ensures WebDriverTarget(index, "/session/") == WebDriverTarget(index, "/wd/hub/session/") == Reject(400)
  {
  }

  /** The rest of a path: nothing, or a further segment. */
  predicate IsRemainder(r: string) {
    r == "" || HasPrefix(r, "/")
  }

  lemma SegmentOf(head: string, r: string)
    requires '/' !in head && IsRemainder(r)
    ensures FirstPathSegment(head + r) == (head, r)
  {
    if r == "" {
      assert head + r == head;
    } else {
      assert head + r == head + ['/'] + r[1..];
      CutAt(head, '/', r[1..]);
      assert r == "/" + r[1..];
    }
  }

  lemma TrimOwnPrefix(prefix: string, rest: string)
    ensures HasPrefix(prefix + rest, prefix) && TrimPrefix(prefix + rest, prefix) == rest
  {}

  lemma SplitAfterBase(base: string, session: string, r: string)
    requires session != "" && '/' !in session && IsRemainder(r)
    ensures SplitAfter(base + "/" + session + r, base + "/") == Some((base, session, r))
  {
    SegmentOf(session, r);
    assert base + "/" + session + r == (base + "/") + (session + r);
    TrimOwnPrefix(base + "/", session + r);
    assert (base + "/")[|base + "/"| - 1..] == "/";
    assert TrimSuffix(base + "/", "/") == base;
  }

  /** The prefix under which a base's sessions live. */
  function SessionsUnder(base: string): string
    requires base == "/session" || base == "/wd/hub/session"
  {
    if base == "/session" then "/session/" else "/wd/hub/session/"
  }

  lemma SessionsPrefix(base: string)
    requires base == "/session" || base == "/wd/hub/session"
    ensures base + "/" == SessionsUnder(base)
  {}

  /** The two prefixes exclude each other. */
  lemma SplitByPrefix(path: string, base: string)
    requires (base == "/session" || base == "/wd/hub/session") && HasPrefix(path, SessionsUnder(base))
    ensures SplitWebDriverSessionPath(path) == SplitAfter(path, SessionsUnder(base))
  {
    PrefixAt(path, SessionsUnder(base), 1);
    if base == "/session" && HasPrefix(path, "/wd/hub/session/") {
      PrefixAt(path, "/wd/hub/session/", 1);
      assert false;
    }
  }

  lemma PrefixAt(path: string, prefix: string, i: nat)
    requires HasPrefix(path, prefix) && i < |prefix|
    ensures path[i] == prefix[i]
  {}

  lemma JoinedUnder(prefix: string, session: string, r: string)
    ensures HasPrefix(prefix + session + r, prefix)
  {}

  lemma SplitBase(base: string, session: string, r: string)
    requires base == "/session" || base == "/wd/hub/session"
    requires session != "" && '/' !in session && IsRemainder(r)
    ensures SplitWebDriverSessionPath(base + "/" + session + r) == Some((base, session, r))
  {
    SessionsPrefix(base);
    SplitAfterBase(base, session, r);
    JoinedUnder(base + "/", session, r);
    SplitByPrefix(base + "/" + session + r, base);
  }

  /** How any assembled id routes. */
  lemma RouteAssembled(index: TokenIndex, token: string, u: string)
    requires token != "" && '_' !in token
    ensures RouteSession(index, Lead(token) + u) ==
            if u == "" then Err(400) else if token in index then Ok((index[token], u)) else Err(404)
  {
    if u == "" {
      assert Lead(token) + u == PREFIX + ['_'] + (token + ['_'] + "");
      CutAt(PREFIX, '_', token + ['_'] + "");
      CutAt(token, '_', "");
    } else {
      EncodeIsLead(token, u);
      DecodeEncode(token, u);
    }
  }

  lemma Regroup(front: string, lead: string, head: string, tail: string, r: string)
    ensures front + (lead + (head + tail)) + r == front + (lead + head) + (tail + r)
    ensures front + (head + tail) + r == front + head + (tail + r)
  {}

  /**
    Path inversion: the client path `base/public-id r` goes upstream as exactly
    `base/u r` (slashes inside `u` included) whenever the upstream id does not
    START with a slash; an id that does is refused.
   */
  lemma WebDriverPathInversion(index: TokenIndex, base: string, token: string, u: string, r: string)
    requires base == "/session" || base == "/wd/hub/session"
    requires Encode(token, u).Some? && '/' !in token && IsRemainder(r)
    ensures WebDriverTarget(index, base + "/" + Encode(token, u).value + r) ==
            if u[0] == '/' then Reject(400)
            else if token !in index then Reject(404)
            else Forward(index[token], base + "/" + u + r, WEBDRIVER)
  {
    var (u0, rest) := FirstPathSegment(u);
    FirstSegmentJoins(u);
    EncodeIsLead(token, u);
    LeadShape(token);
    Regroup(base + "/", Lead(token), u0, rest, r);
    SplitBase(base, Lead(token) + u0, rest + r);
    RouteAssembled(index, token, u0);
  }

  lemma FirstSegmentJoins(u: string)
    requires u != ""
    ensures var (head, tail) := FirstPathSegment(u);
            u == head + tail && '/' !in head && IsRemainder(tail) && (head == "" <==> u[0] == '/')
  {
    var (head, tail) := FirstPathSegment(u);
    assert u == head + tail;
  }

  // ---- Bodies ----

  /** A request body: absent (or an upgrade), over the limit, not one JSON document, or one document. */
  datatype Body = Absent | TooLarge | Opaque(raw: string) | Document(json: Json)

  /** Removes a top-level `sessionId`; every other body passes as it is. */
  function StripSessionId(json: Json): Json {
    if json.Object? && "sessionId" in json.fields then Object(json.fields - {"sessionId"}) else json
  }

  function SanitizeProxyBody(body: Body): Option<Body> {
    match body
    case TooLarge => None
    case Document(json) => Some(Document(StripSessionId(json)))
    case _ => Some(body)
  }

  /** Stripping leaves no top-level id, keeps the rest, and is idempotent. */
  lemma StripKeepsTheRest(json: Json)
    ensures json.Object? ==>
              && StripSessionId(json).Object?
              && StripSessionId(json).fields.Keys == json.fields.Keys - {"sessionId"}
              && forall k <- StripSessionId(json).fields :: StripSessionId(json).fields[k] == json.fields[k]
    ensures !json.Object? ==> StripSessionId(json) == json
    ensures StripSessionId(StripSessionId(json)) == StripSessionId(json)
  {
    if json.Object? && "sessionId" !in json.fields {
      assert json.fields.Keys == json.fields.Keys - {"sessionId"};
    }
  }

  /** A body within the limit goes on; one JSON object among them loses its top-level `sessionId` and nothing else. */
  lemma SanitizedForms(fields: map<string, Json>, json: Json, raw: string)
    ensures SanitizeProxyBody(TooLarge) == None && SanitizeProxyBody(Absent) == Some(Absent)
    ensures SanitizeProxyBody(Opaque(raw)) == Some(Opaque(raw))
    ensures !json.Object? ==> SanitizeProxyBody(Document(json)) == Some(Document(json))
    ensures var out := SanitizeProxyBody(Document(Object(fields)));
            && out.Some? && out.value.Document? && out.value.json.Object?
            && out.value.json.fields.Keys == fields.Keys - {"sessionId"}
            && forall k <- out.value.json.fields :: out.value.json.fields[k] == fields[k]
  {
    StripKeepsTheRest(Object(fields));
  }

  datatype Rewritten = Rewritten(payload: map<string, Json>, upstreamSessionId: string, publicSessionId: string)

  function TopSessionId(payload: map<string, Json>): Option<string> {
    if "sessionId" in payload && payload["sessionId"].String? then Some(payload["sessionId"].text) else None
  }

  function NestedObject(payload: map<string, Json>): Option<map<string, Json>> {
    if "value" in payload && payload["value"].Object? then Some(payload["value"].fields) else None
  }

  function NestedSessionId(payload: map<string, Json>): Option<string> {
    match NestedObject(payload)
    case None => None
    case Some(value) => TopSessionId(value)
  }

  /** The nested id wins when it is a string; a nonempty top-level id that differs from it is a conflict. */
  function UpstreamIdOf(payload: map<string, Json>): Option<string> {
    var top := match TopSessionId(payload) case Some(id) => id case None => "";
    match NestedSessionId(payload)
    case Some(nested) => if (top != "" && top != nested) || nested == "" then None else Some(nested)
    case None => if top == "" then None else Some(top)
  }

  /** `after` is `before` with every present session id slot holding `id` and nothing else changed. */
  ghost predicate OnlySlotsChanged(before: map<string, Json>, after: map<string, Json>, id: string) {
    && after.Keys == before.Keys
    && (forall k <- before | k != "sessionId" && k != "value" :: after[k] == before[k])
    && ("sessionId" in before ==> after["sessionId"] == String(id))
    && ("value" in before && !before["value"].Object? ==> after["value"] == before["value"])
    && (NestedObject(before).Some? ==>
          NestedObject(after).Some? &&
          var inner, inner' := NestedObject(before).value, NestedObject(after).value;
          && inner'.Keys == inner.Keys
          && (forall k <- inner | k != "sessionId" :: inner'[k] == inner[k])
          && ("sessionId" in inner ==> inner'["sessionId"] == String(id)))
  }

  /**
    Rewrites the decoded response. It fails exactly when the response holds no
    usable upstream id (none, empty, or two that disagree) or the token cannot
    be encoded; otherwise one public id fills every slot and decodes back.
   */
  method RewriteNewSessionResponse(body: Option<map<string, Json>>, routeToken: string) returns (r: Option<Rewritten>)
    ensures r.Some? <==>
              body.Some? && UpstreamIdOf(body.value).Some? && Encode(routeToken, UpstreamIdOf(body.value).value).Some?
    ensures r.Some? ==> UpstreamIdOf(body.value) == Some(r.value.upstreamSessionId)
    ensures r.Some? ==> Decode(r.value.publicSessionId) == Some(Parts(routeToken, r.value.upstreamSessionId))
    ensures r.Some? ==> OnlySlotsChanged(body.value, r.value.payload, r.value.publicSessionId)
    ensures r.Some? ==> r.value.publicSessionId == "r1_" + routeToken + "_" + r.value.upstreamSessionId
    ensures body.None? || routeToken == "" || '_' in routeToken ==> r.None?
    ensures body.Some? && routeToken != "" && '_' !in routeToken ==>
              var top := if "sessionId" in body.value then body.value["sessionId"] else Null;
              var value := if "value" in body.value then body.value["value"] else Null;
              if value.Object? && "sessionId" in value.fields && value.fields["sessionId"].String? then
                var u := value.fields["sessionId"].text;
                if u != "" && (!top.String? || top.text == "" || top.text == u)
                then r.Some? && r.value.upstreamSessionId == u
                else r.None?
              else if top.String? && top.text != "" then r.Some? && r.value.upstreamSessionId == top.text
              else r.None?
  {
    if body.None? {
      return None;
    }
    var payload := body.value;
    var upstream := "";
    if "sessionId" in payload && payload["sessionId"].String? {
      upstream := payload["sessionId"].text;
    }
    if "value" in payload && payload["value"].Object? {
      var value := payload["value"].fields;
      if "sessionId" in value && value["sessionId"].String? {
        if upstream != "" && upstream != value["sessionId"].text {
          return None;
        }
        upstream := value["sessionId"].text;
      }
    }
    if upstream == "" {
      return None;
    }
    var encoded := Encode(routeToken, upstream);
    if encoded.None? {
      return None;
    }
    var publicId := encoded.value;
    DecodeEncode(routeToken, upstream);
    IdForm(routeToken, upstream);
    payload := FillSlots(payload, publicId);
    return Some(Rewritten(payload, upstream, publicId));
  }

  method FillSlots(decoded: map<string, Json>, publicId: string) returns (payload: map<string, Json>)
    ensures OnlySlotsChanged(decoded, payload, publicId)
  {
    payload := decoded;
    if "sessionId" in payload {
      payload := payload["sessionId" := String(publicId)];
    }
    if "value" in payload && payload["value"].Object? {
      var value := payload["value"].fields;
      if "sessionId" in value {
        value := value["sessionId" := String(publicId)];
        payload := payload["value" := Object(value)];
      }
    }
  }

  // ---- Side endpoints ----

  const PLAYWRIGHT_PREFIX := "pw_"

  function TrimArtifactSuffix(prefix: string, part: string): (string, string) {
    if prefix == "/video/" && HasSuffix(part, ".mp4") then (TrimSuffix(part, ".mp4"), ".mp4")
    else if prefix == "/logs/" && HasSuffix(part, ".log") then (TrimSuffix(part, ".log"), ".log")
    else (part, "")
  }

  /** Where a session-addressed side request goes. */
  function SideTarget(index: TokenIndex, prefix: string, rest: string): Outcome {
    var (part, remainder) := FirstPathSegment(rest);
    var (publicId, suffix) := TrimArtifactSuffix(prefix, part);
    match RouteSession(index, publicId)
    case Err(status) => Reject(status)
    case Ok((pool, upstream)) =>
      var playwright := HasPrefix(upstream, PLAYWRIGHT_PREFIX);
      var segment := (if playwright then publicId else upstream) + suffix;
      var segment' := if prefix == "/video/" && suffix == "" && remainder == "" then segment + ".mp4" else segment;
      Forward(pool, prefix + segment' + remainder, if playwright then PLAYWRIGHT else WEBDRIVER)
  }

  /** A suffix with a dot never reaches into the `r1_token_` lead of an id. */
  lemma TrimLead(prefix: string, lead: string, u: string)
    requires |lead| > 0 && lead[|lead| - 1] == '_'
    ensures TrimArtifactSuffix(prefix, lead + u) ==
            (lead + TrimArtifactSuffix(prefix, u).0, TrimArtifactSuffix(prefix, u).1)
  {
    TrimLeadOne(lead, u, ".mp4");
    TrimLeadOne(lead, u, ".log");
  }

  lemma TrimLeadOne(lead: string, u: string, suffix: string)
    requires |lead| > 0 && lead[|lead| - 1] == '_' && '_' !in suffix
    ensures HasSuffix(lead + u, suffix) <==> HasSuffix(u, suffix)
    ensures HasSuffix(u, suffix) ==> TrimSuffix(lead + u, suffix) == lead + TrimSuffix(u, suffix)
  {
    var s := lead + u;
    if HasSuffix(s, suffix) {
      assert forall i | 0 <= i < |suffix| :: suffix[i] == s[|s| - |suffix| + i];
      assert s[|lead| - 1] == '_';
    }
    if HasSuffix(u, suffix) {
      assert s[|s| - |suffix|..] == u[|u| - |suffix|..];
    }
    if |suffix| <= |u| {
      assert s[|s| - |suffix|..] == u[|u| - |suffix|..];
    }
  }

  /** The segments that are nothing but the artifact suffix of their prefix. */
  predicate BareSuffix(prefix: string, segment: string) {
    (prefix == "/video/" && segment == ".mp4") || (prefix == "/logs/" && segment == ".log")
  }

  /**
    Side paths: the upstream session segment is the upstream id (the whole
    public id for a Playwright session) exactly as the client wrote it, slashes
    included, with `.mp4` added only to a bare video path. Refused are just the
    ids whose first segment is empty or nothing but the suffix of the prefix.
   */
  lemma SidePathRewriting(index: TokenIndex, prefix: string, token: string, u: string, r: string)
    requires Encode(token, u).Some? && '/' !in token && IsRemainder(r)
    ensures var public := Encode(token, u).value;
            SideTarget(index, prefix, public + r) ==
            if u[0] == '/' || BareSuffix(prefix, FirstPathSegment(u).0) then Reject(400)
            else if token !in index then Reject(404)
            else Forward(index[token], SidePath(prefix, public, u, r), SideProtocol(u))
  {
    var (head, tail) := FirstPathSegment(u);
    FirstSegmentJoins(u);
    EncodeIsLead(token, u);
    SideJoins(Lead(token), head, tail, r);
    if head == "" {
      EmptySegment(index, prefix, token, tail + r);
    } else {
      EncodeIsLead(token, head);
      SideSegment(index, prefix, token, head, tail + r);
      SidePathShifts(prefix, Lead(token), head, tail, r);
    }
  }

  /** What the upstream is asked for. */
  function SidePath(prefix: string, public: string, u: string, r: string): string {
    var segment := if HasPrefix(u, PLAYWRIGHT_PREFIX) then public else u;
    var bareVideo := prefix == "/video/" && '/' !in u && r == "" && !HasSuffix(u, ".mp4");
    prefix + (if bareVideo then segment + ".mp4" else segment) + r
  }

  function SideProtocol(u: string): Protocol {
    if HasPrefix(u, PLAYWRIGHT_PREFIX) then PLAYWRIGHT else WEBDRIVER
  }

  lemma SideJoins(lead: string, head: string, tail: string, r: string)
    ensures lead + (head + tail) + r == lead + head + (tail + r)
    ensures IsRemainder(tail) && IsRemainder(r) ==> IsRemainder(tail + r)
  {}

  lemma SidePathShifts(prefix: string, lead: string, head: string, tail: string, r: string)
    requires IsRemainder(tail) && '/' !in head
    ensures SidePath(prefix, lead + head, head, tail + r) == SidePath(prefix, lead + (head + tail), head + tail, r)
    ensures SideProtocol(head) == SideProtocol(head + tail)
  {
    PlaywrightHead(head, tail);
    if tail == "" {
      assert head + tail == head && tail + r == r;
    } else {
      assert (head + tail)[|head|] == '/' && tail + r != "";
      assert prefix + head + (tail + r) == prefix + (head + tail) + r;
      assert prefix + (lead + head) + (tail + r) == prefix + (lead + (head + tail)) + r;
    }
  }

  /** An id without its upstream part is malformed under every prefix. */
  lemma EmptySegment(index: TokenIndex, prefix: string, token: string, rest: string)
    requires token != "" && '_' !in token && '/' !in token && IsRemainder(rest)
    ensures SideTarget(index, prefix, Lead(token) + "" + rest) == Reject(400)
  {
    LeadShape(token);
    assert Lead(token) + "" == Lead(token);
    SegmentOf(Lead(token), rest);
    TrimLead(prefix, Lead(token), "");
    RouteAssembled(index, token, "");
  }

  /** The three characters of the Playwright prefix lie within the first segment. */
  lemma PlaywrightHead(head: string, tail: string)
    requires IsRemainder(tail)
    ensures HasPrefix(head + tail, PLAYWRIGHT_PREFIX) <==> HasPrefix(head, PLAYWRIGHT_PREFIX)
  {
    var s := head + tail;
    if HasPrefix(s, PLAYWRIGHT_PREFIX) {
      assert forall i | 0 <= i < 3 :: s[i] == PLAYWRIGHT_PREFIX[i];
      assert tail != "" ==> s[|head|] == '/';
      assert |head| >= 3;
    }
  }

  /** A WebDriver session goes upstream under its own id, and a bare video path means the file. */
  lemma WebDriverSidePath(index: TokenIndex, token: string, u: string, r: string)
    requires token in index && Encode(token, u).Some? && '/' !in token && '/' !in u && IsRemainder(r)
    requires !HasPrefix(u, "pw_") && !HasSuffix(u, ".mp4")
    ensures var public := Encode(token, u).value;
            && SideTarget(index, "/vnc/", public + r) == Forward(index[token], "/vnc/" + u + r, "webdriver")
            && SideTarget(index, "/video/", public + "") ==
               Forward(index[token], "/video/" + (u + ".mp4") + "", "webdriver")
  {
    SideSegment(index, "/vnc/", token, u, r);
    SideSegment(index, "/video/", token, u, "");
  }

  /** A Playwright session goes upstream under its public id. */
  lemma PlaywrightSidePath(index: TokenIndex, token: string, u: string, r: string)
    requires token in index && Encode(token, u).Some? && '/' !in token && '/' !in u && IsRemainder(r)
    requires HasPrefix(u, "pw_")
    ensures var public := Encode(token, u).value;
            SideTarget(index, "/vnc/", public + r) == Forward(index[token], "/vnc/" + public + r, "playwright")
  {
    SideSegment(index, "/vnc/", token, u, r);
  }

  /** The same for an upstream id that is one segment. */
  lemma SideSegment(index: TokenIndex, prefix: string, token: string, u: string, r: string)
    requires Encode(token, u).Some? && '/' !in token && '/' !in u && IsRemainder(r)
    ensures var public := Encode(token, u).value;
            SideTarget(index, prefix, public + r) ==
            if BareSuffix(prefix, u) then Reject(400)
            else if token !in index then Reject(404)
            else Forward(index[token], SidePath(prefix, public, u, r), SideProtocol(u))
  {
    var (v, suffix) := TrimArtifactSuffix(prefix, u);
    var public := Lead(token) + u;
    SideParts(prefix, token, u, r);
    RouteAssembled(index, token, v);
    if v != "" && token in index {
      SideForward(index, prefix, public, r, Lead(token) + v, suffix, index[token], v);
    }
  }

  /** How the client's side path falls into parts. */
  lemma SideParts(prefix: string, token: string, u: string, r: string)
    requires Encode(token, u).Some? && '/' !in token && '/' !in u && IsRemainder(r)
    ensures var (v, suffix) := TrimArtifactSuffix(prefix, u);
            var public := Lead(token) + u;
            && Encode(token, u) == Some(public)
            && FirstPathSegment(public + r) == (public, r)
            && TrimArtifactSuffix(prefix, public) == (Lead(token) + v, suffix)
            && public == Lead(token) + v + suffix && u == v + suffix
            && (v == "" <==> BareSuffix(prefix, u))
            && (prefix == "/video/" ==> (suffix == "" <==> !HasSuffix(u, ".mp4")))
            && (HasPrefix(u, PLAYWRIGHT_PREFIX) <==> HasPrefix(v, PLAYWRIGHT_PREFIX))
  {
    EncodeIsLead(token, u);
    LeadShape(token);
    SegmentOf(Lead(token) + u, r);
    TrimLead(prefix, Lead(token), u);
    var (v, suffix) := TrimArtifactSuffix(prefix, u);
    TrimJoins(prefix, u);
    PlaywrightPrefixSurvives(v, suffix);
  }

  /** One unfolding of the side target, for a part that trims to `publicId` and `suffix`. */
  lemma SideForward(
    index: TokenIndex, prefix: string, part: string, r: string,
    publicId: string, suffix: string, pool: BackendPool, upstream: string)
    requires FirstPathSegment(part + r) == (part, r)
    requires TrimArtifactSuffix(prefix, part) == (publicId, suffix) && part == publicId + suffix
    requires RouteSession(index, publicId) == Ok((pool, upstream))
    ensures var playwright := HasPrefix(upstream, PLAYWRIGHT_PREFIX);
            var segment := if playwright then part else upstream + suffix;
            SideTarget(index, prefix, part + r) ==
            Forward(
              pool,
              prefix + (if prefix == "/video/" && suffix == "" && r == "" then segment + ".mp4" else segment) + r,
              if playwright then PLAYWRIGHT else WEBDRIVER)
  {}

  lemma TrimJoins(prefix: string, u: string)
    ensures var (v, suffix) := TrimArtifactSuffix(prefix, u);
            && u == v + suffix && suffix in ["", ".mp4", ".log"]
            && (v == "" && u != "" <==> BareSuffix(prefix, u))
            && (prefix == "/video/" ==> (suffix == "" <==> !HasSuffix(u, ".mp4")))
  {}

  lemma PlaywrightPrefixSurvives(v: string, suffix: string)
    requires suffix in ["", ".mp4", ".log"]
    ensures HasPrefix(v + suffix, PLAYWRIGHT_PREFIX) <==> HasPrefix(v, PLAYWRIGHT_PREFIX)
  {
    var s := v + suffix;
    if HasPrefix(s, PLAYWRIGHT_PREFIX) {
      assert forall i | 0 <= i < 3 :: s[i] == PLAYWRIGHT_PREFIX[i];
      assert suffix != "" ==> s[|v|] == '.';
      assert |v| >= 3;
    }
  }

  /** A minted upstream id has no slash and does not look like a video file, until `.mp4` is added. */
  lemma MintedShape(random: Digest16)
    ensures var u := PLAYWRIGHT_PREFIX + HexEncode(random);
            && '/' !in u && !HasSuffix(u, ".mp4")
            && HasSuffix(u + ".mp4", ".mp4") && HasPrefix(u + ".mp4", PLAYWRIGHT_PREFIX) && u + ".mp4" != ".mp4"
  {
    var u := PLAYWRIGHT_PREFIX + HexEncode(random);
    HexShape(random);
    assert u[|u| - 2] == HexEncode(random)[|u| - 5] && u[|u| - 4..][2] == u[|u| - 2];
    assert 'p' !in HEX_DIGITS;
    assert (u + ".mp4")[|u + ".mp4"| - 4..] == ".mp4";
  }

  /** For a freshly minted Playwright id, `/video/id` and `/video/id.mp4` are one upstream resource. */
  lemma MintedVideoPathsAgree(index: TokenIndex, token: string, random: Digest16)
    requires token != "" && '_' !in token && '/' !in token
    ensures var public := Encode(token, PLAYWRIGHT_PREFIX + HexEncode(random)).value;
            SideTarget(index, "/video/", public) == SideTarget(index, "/video/", public + ".mp4")
  {
    var u := PLAYWRIGHT_PREFIX + HexEncode(random);
    var public := Encode(token, u).value;
    MintedShape(random);
    var u' := u + ".mp4";
    EncodeIsLead(token, u);
    EncodeIsLead(token, u');
    assert Lead(token) + u' == public + ".mp4";
    assert public + "" == public && public + ".mp4" + "" == public + ".mp4";
    SideSegment(index, "/video/", token, u, "");
    SideSegment(index, "/video/", token, u', "");
  }

  /** The pool is the first of the list that is up. */
  ghost predicate FirstUp(pools: seq<BackendPool>, view: Routing.View, pool: BackendPool) {
    exists i :: 0 <= i < |pools| && pool == pools[i] && Routing.IsUp(view, pool.id)
                && forall j | 0 <= j < i :: !Routing.IsUp(view, pools[j].id)
  }

  /** The first pool that is up; health is all that matters here, not weight or region. */
  method DefaultBackend(h: Handler, now: int) returns (r: Option<BackendPool>)
    requires h.health != null ==> h.health.Valid()
    ensures r.None? ==> forall p <- h.pools :: !Routing.IsUp(Routing.ViewOf(h.health, now), p.id)
    ensures r.Some? ==> FirstUp(h.pools, Routing.ViewOf(h.health, now), r.value)
  {
    for i := 0 to |h.pools|
      invariant forall j | 0 <= j < i :: !Routing.IsUp(Routing.ViewOf(h.health, now), h.pools[j].id)
    {
      var pool := h.pools[i];
      if h.health != null {
        var up := h.health.Available(pool.id, now);
        if !up {
          continue;
        }
      }
      return Some(pool);
    }
    return None;
  }

  /** The request goes to the first pool that is up, its path untouched; 503 when none is. */
  ghost predicate ServedByDefault(h: Handler, path: string, now: int, out: Outcome)
    reads h.health
  {
    if out.Forward? then
      out.path == path && out.protocol == "" && FirstUp(h.pools, Routing.ViewOf(h.health, now), out.pool)
    else out == Reject(503) && forall p <- h.pools :: !Routing.IsUp(Routing.ViewOf(h.health, now), p.id)
  }

  /** A request already routed: over-limit bodies turn a forward into 413. */
  function WithBody(out: Outcome, body: Body): Outcome {
    if out.Forward? && SanitizeProxyBody(body).None? then Reject(413) else out
  }

  /** The side endpoint, with or without the prefix that the mux stamps on the request. */
  method ProxySideEndpoint(h: Handler, path: string, stamped: Option<string>, body: Body, now: int)
    returns (out: Outcome)
    requires h.health != null ==> h.health.Valid()
    requires stamped.Some? ==> stamped.value in SideRoute.PREFIXES && HasPrefix(path, stamped.value)
    ensures SideRoute.IsHistorySettings(path) ==>
              exists base :: ServedByDefault(h, path, now, base) && out == WithBody(base, body)
    ensures !SideRoute.IsHistorySettings(path) ==>
              match SideRoute.MatchPrefix(path)
              case None => out == Reject(400)
              case Some((prefix, rest)) =>
                if rest == "" then ServedByDefault(h, path, now, out)
                else out == WithBody(SideTarget(h.tokenToBackend, prefix, rest), body)
  {
    if SideRoute.IsHistorySettings(path) {
      var backend := DefaultBackend(h, now);
      if backend.None? {
        assert ServedByDefault(h, path, now, Reject(503));
        return Reject(503);
      }
      assert ServedByDefault(h, path, now, Forward(backend.value, path, ""));
      if SanitizeProxyBody(body).None? {
        return Reject(413);
      }
      return Forward(backend.value, path, "");
    }
    var prefix, rest := "", "";
    if stamped.Some? {
      SideRoute.StampedPrefixIsMatched(path, stamped.value);
      prefix := stamped.value;
      rest := TrimPrefix(path, prefix);
    } else {
      var matched := SideRoute.MatchPrefix(path);
      if matched.None? {
        return Reject(400);
      }
      prefix, rest := matched.value.0, matched.value.1;
    }
    if rest == "" {
      var backend := DefaultBackend(h, now);
      if backend.None? {
        return Reject(503);
      }
      return Forward(backend.value, path, "");
    }
    var (sessionPart, remainder) := FirstPathSegment(rest);
    var (publicId, suffix) := TrimArtifactSuffix(prefix, sessionPart);
    var routed := RouteSession(h.tokenToBackend, publicId);
    if routed.Err? {
      return Reject(routed.error);
    }
    var (pool, upstream) := routed.value;
    var upstreamPart := upstream + suffix;
    var protocol := WEBDRIVER;
    if HasPrefix(upstream, PLAYWRIGHT_PREFIX) {
      upstreamPart := publicId + suffix;
      protocol := PLAYWRIGHT;
    }
    if prefix == "/video/" && suffix == "" && remainder == "" {
      upstreamPart := upstreamPart + ".mp4";
    }
    if SanitizeProxyBody(body).None? {
      return Reject(413);
    }
    return Forward(pool, prefix + upstreamPart + remainder, protocol);
  }
}
