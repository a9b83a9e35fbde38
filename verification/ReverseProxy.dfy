/**
  Shaping of upstream requests. Header names are kept in lower case, one
  representative for each canonical name.
 */
module ReverseProxy {
  import opened Wrappers
  import opened Strings
  import opened Config

  type Headers = map<string, seq<string>>

  function Values(h: Headers, name: string): seq<string> {
    if name in h then h[name] else []
  }

  const AUTHORIZATION := "authorization"
  const ROUTER_SECRET := "x-router-secret"

  /** Identity propagation with its secret already resolved; an empty user header turns it off. */
  datatype IdentityConfig = IdentityConfig(userHeader: string, adminHeader: string, routerSecret: string) {
    predicate Enabled() {
      userHeader != ""
    }

    /** The headers that only the router may set. */
    function StripHeaders(): seq<string> {
      if !Enabled() then []
      else [userHeader, ROUTER_SECRET] + if adminHeader != "" then [adminHeader] else []
    }

    predicate Owns(name: string) {
      Enabled() && (
        name == ToLower(userHeader) || name == ROUTER_SECRET || (adminHeader != "" && name == ToLower(adminHeader)))
    }
  }

  datatype Identity = Identity(allowed: bool, subject: string, guest: bool, admin: bool)

  function Subject(id: Identity): string {
    if id.subject == "" && id.guest then "guest" else id.subject
  }

  /** The value of an owned header: the secret wins over the admin flag, which wins over the subject. */
  function OwnedValue(cfg: IdentityConfig, id: Option<Identity>, name: string): seq<string> {
    if id.None? || !id.value.allowed then []
    else if cfg.routerSecret != "" && name == ROUTER_SECRET then [cfg.routerSecret]
    else if id.value.admin && cfg.adminHeader != "" && name == ToLower(cfg.adminHeader) then ["true"]
    else if Subject(id.value) != "" && name == ToLower(cfg.userHeader) then [Subject(id.value)]
    else []
  }

  /** A header after the backend's credentials, and after the identity, given its value before. */
  function AfterCredentials(
    before: seq<string>, credentials: map<string, string>, backendId: string, name: string): seq<string> {
    if backendId in credentials && name == AUTHORIZATION then [credentials[backendId]] else before
  }

  function AfterIdentity(before: seq<string>, cfg: IdentityConfig, id: Option<Identity>, name: string): seq<string> {
    if cfg.Owns(name) then OwnedValue(cfg, id, name) else before
  }

  lemma LowerNames()
    ensures ToLower("Authorization") == AUTHORIZATION && ToLower("Host") == "host"
    ensures ToLower(ROUTER_SECRET) == ROUTER_SECRET
  {}

  predicate IsHopHeader(name: string) {
    ToLower(name) in {
      "connection", "proxy-connection", "keep-alive", "proxy-authenticate", "proxy-authorization",
      "te", "trailer", "transfer-encoding", "upgrade"
    }
  }

  predicate ShouldSkip(name: string) {
    EqualFold(name, "Authorization") || EqualFold(name, "Host") || IsHopHeader(name)
  }

  function SingleJoiningSlash(a: string, b: string): string {
    var aSlash, bSlash := HasSuffix(a, "/"), HasPrefix(b, "/");
    if aSlash && bSlash then a + b[1..]
    else if !aSlash && !bSlash then a + "/" + b
    else a + b
  }

  /** Exactly one slash at the joint, whichever side brought one. */
  lemma OneSlashAtTheJoint(a: string, b: string)
    ensures SingleJoiningSlash(a, b) == TrimSuffix(a, "/") + "/" + TrimPrefix(b, "/")
  {
    if HasSuffix(a, "/") {
      assert a == TrimSuffix(a, "/") + "/";
    }
    if HasPrefix(b, "/") {
      assert b == "/" + TrimPrefix(b, "/");
    }
  }

  function JoinQueries(a: string, b: string): string {
    if a == "" then b else if b == "" then a else a + "&" + b
  }

  /** The target's query comes first, and a separator only between two queries. */
  lemma QueryForms(a: string, b: string)
    ensures JoinQueries("", b) == b && JoinQueries(a, "") == a
    ensures a != "" && b != "" ==> JoinQueries(a, b) == a + "&" + b
  {}

  /** The identity headers, one by one, where their names differ. */
  lemma IdentityHeaders(before: seq<string>, cfg: IdentityConfig, id: Option<Identity>)
    requires cfg.userHeader != "" && ToLower(cfg.userHeader) != "x-router-secret"
    requires cfg.adminHeader != "" ==> ToLower(cfg.adminHeader) !in {"x-router-secret", ToLower(cfg.userHeader)}
    ensures var known := id.Some? && id.value.allowed;
            && AfterIdentity(before, cfg, id, ToLower(cfg.userHeader)) ==
               (if !known then [] else if id.value.subject != "" then [id.value.subject]
                else if id.value.guest then ["guest"] else [])
            && AfterIdentity(before, cfg, id, "x-router-secret") ==
               (if known && cfg.routerSecret != "" then [cfg.routerSecret] else [])
            && (cfg.adminHeader != "" ==>
                  AfterIdentity(before, cfg, id, ToLower(cfg.adminHeader)) ==
                  if known && id.value.admin then ["true"] else [])
    ensures forall n | n != ToLower(cfg.userHeader) && n != "x-router-secret"
                       && (cfg.adminHeader == "" || n != ToLower(cfg.adminHeader)) ::
              AfterIdentity(before, cfg, id, n) == before
  {}

  /** With no user header configured nothing is stripped and nothing is set. */
  lemma IdentityOff(before: seq<string>, cfg: IdentityConfig, id: Option<Identity>, name: string)
    requires cfg.userHeader == ""
    ensures AfterIdentity(before, cfg, id, name) == before
  {}

  /** Only authorization depends on credentials, and only the backend's own count. */
  lemma CredentialForms(before: seq<string>, credentials: map<string, string>, backendId: string, name: string)
    ensures AfterCredentials(before, credentials, backendId, name) ==
            if name == "authorization" && backendId in credentials then [credentials[backendId]] else before
  {}

  /** What a request built from nothing takes over from the client: all but these. */
  lemma KeptForms(incoming: Headers, name: string)
    requires name == ToLower(name)
    ensures Kept(incoming, name) ==
            if name in {
              "authorization", "host", "connection", "proxy-connection", "keep-alive", "proxy-authenticate",
              "proxy-authorization", "te", "trailer", "transfer-encoding", "upgrade"}
            then [] else if name in incoming then incoming[name] else []
  {
    LowerNames();
  }

  /** A request on its way upstream. */
  class Outgoing {
    var scheme: string
    var host: string
    var path: string
    var rawQuery: string
    var header: Headers

    constructor (header: Headers)
      ensures this.header == header
    {
      scheme, host, path, rawQuery := "", "", "", "";
      this.header := header;
    }

    method Del(name: string)
      modifies this`header
      ensures forall n :: Values(header, n) == if n == ToLower(name) then [] else Values(old(header), n)
    {
      header := header - {ToLower(name)};
    }

    method Set(name: string, value: string)
      modifies this`header
      ensures forall n :: Values(header, n) == if n == ToLower(name) then [value] else Values(old(header), n)
    {
      header := header[ToLower(name) := [value]];
    }

    /** BasicAuth for the backend, where it has credentials. */
    method ApplyBackendCredentials(credentials: map<string, string>, backendId: string)
      modifies this`header
      ensures forall n :: Values(header, n) == AfterCredentials(Values(old(header), n), credentials, backendId, n)
    {
      if backendId in credentials {
        LowerNames();
        Set("Authorization", credentials[backendId]);
      }
    }

    method StripOwned(cfg: IdentityConfig)
      modifies this`header
      ensures forall n :: Values(header, n) == if cfg.Owns(n) then [] else Values(old(header), n)
    {
      var strip := cfg.StripHeaders();
      for i := 0 to |strip|
        invariant forall n :: Values(header, n) == if NamedIn(strip[..i], n) then [] else Values(old(header), n)
      {
        assert strip[..i + 1] == strip[..i] + [strip[i]];
        Del(strip[i]);
      }
      assert strip[..|strip|] == strip;
      Stripped(cfg);
    }

    /** Owned headers take their value from the identity alone; all others keep theirs. */
    method ApplyUpstreamIdentity(cfg: IdentityConfig, id: Option<Identity>)
      modifies this`header
      ensures forall n :: Values(header, n) == AfterIdentity(Values(old(header), n), cfg, id, n)
    {
      StripOwned(cfg);
      if !cfg.Enabled() {
        return;
      }
      if id.None? || !id.value.allowed {
        return;
      }
      var subject := id.value.subject;
      if subject == "" && id.value.guest {
        subject := "guest";
      }
      if subject != "" {
        Set(cfg.userHeader, subject);
      }
      if id.value.admin && cfg.adminHeader != "" {
        Set(cfg.adminHeader, "true");
      }
      if cfg.routerSecret != "" {
        LowerNames();
        Set(ROUTER_SECRET, cfg.routerSecret);
      }
    }
  }

  ghost predicate NamedIn(names: seq<string>, name: string) {
    exists s <- names :: name == ToLower(s)
  }

  lemma Stripped(cfg: IdentityConfig)
    ensures forall n :: cfg.Owns(n) <==> NamedIn(cfg.StripHeaders(), n)
  {
    var strip := cfg.StripHeaders();
    LowerNames();
    forall n | cfg.Owns(n) ensures NamedIn(strip, n) {
      if n == ToLower(cfg.userHeader) {
        assert strip[0] in strip;
      } else if n == ROUTER_SECRET {
        assert strip[1] in strip;
      } else {
        assert strip[2] in strip;
      }
    }
  }

  function Shaped(
    before: seq<string>, credentials: map<string, string>, backendId: string,
    cfg: IdentityConfig, id: Option<Identity>, name: string): seq<string>
  {
    AfterIdentity(AfterCredentials(before, credentials, backendId, name), cfg, id, name)
  }

  /** The headers a new request starts from, before credentials and identity. */
  function Kept(incoming: Headers, name: string): seq<string> {
    if ShouldSkip(name) then [] else Values(incoming, name)
  }

  /** The shape both paths promise: URL parts from the target, headers from client, credentials and identity. */
  ghost predicate UrlShaped(req: Outgoing, target: Url, upstreamPath: string, rawQuery: string)
    reads req
  {
    && req.scheme == target.scheme && req.host == target.host
    && req.path == SingleJoiningSlash(target.path, upstreamPath)
    && req.rawQuery == JoinQueries(target.rawQuery, rawQuery)
  }

  /** Rewrites the clone of the client's request in place; hop-by-hop names are left to the transport. */
  method Director(
    req: Outgoing, target: Url, upstreamPath: string, rawQuery: string,
    credentials: map<string, string>, backendId: string, cfg: IdentityConfig, id: Option<Identity>)
    modifies req
    ensures UrlShaped(req, target, upstreamPath, rawQuery)
    ensures forall n :: Values(req.header, n) ==
                        Shaped(
                          if n == AUTHORIZATION then [] else Values(old(req.header), n),
                          credentials, backendId, cfg, id, n)
  {
    req.scheme := target.scheme;
    req.host := target.host;
    req.path := SingleJoiningSlash(target.path, upstreamPath);
    req.rawQuery := JoinQueries(target.rawQuery, rawQuery);
    LowerNames();
    req.Del("Authorization");
    req.ApplyBackendCredentials(credentials, backendId);
    req.ApplyUpstreamIdentity(cfg, id);
  }

  /** Adds every client header that may pass, value by value. */
  method CopyUpstreamRequestHeaders(src: Headers) returns (dst: Headers)
    requires forall k <- src :: k == ToLower(k)
    ensures forall n :: Values(dst, n) == Kept(src, n)
  {
    dst := map[];
    var todo := src.Keys;
    while todo != {}
      invariant todo <= src.Keys
      invariant forall n :: Values(dst, n) == if n in todo then [] else Kept(src, n)
      decreases todo
    {
      var key :| key in todo;
      todo := todo - {key};
      if ShouldSkip(key) {
        continue;
      }
      dst := AddAll(dst, key, src[key]);
    }
  }

  method AddAll(header: Headers, key: string, values: seq<string>) returns (r: Headers)
    requires key == ToLower(key) && Values(header, key) == []
    ensures forall n :: Values(r, n) == if n == key then values else Values(header, n)
  {
    r := header;
    for i := 0 to |values|
      invariant forall n :: Values(r, n) == if n == key then values[..i] else Values(header, n)
    {
      r := r[ToLower(key) := Values(r, ToLower(key)) + [values[i]]];
    }
    assert values[..|values|] == values;
  }

  /** Builds the request of a new-session attempt from nothing. */
  method NewUpstreamRequest(
    incoming: Headers, target: Url, upstreamPath: string, rawQuery: string,
    credentials: map<string, string>, backendId: string, cfg: IdentityConfig, id: Option<Identity>)
    returns (req: Outgoing)
    requires forall k <- incoming :: k == ToLower(k)
    ensures fresh(req) && UrlShaped(req, target, upstreamPath, rawQuery)
    ensures forall n :: Values(req.header, n) == Shaped(Kept(incoming, n), credentials, backendId, cfg, id, n)
  {
    var header := CopyUpstreamRequestHeaders(incoming);
    req := new Outgoing(header);
    req.scheme := target.scheme;
    req.host := target.host;
    req.path := SingleJoiningSlash(target.path, upstreamPath);
    req.rawQuery := JoinQueries(target.rawQuery, rawQuery);
    req.ApplyBackendCredentials(credentials, backendId);
    req.ApplyUpstreamIdentity(cfg, id);
  }

  /**
    The two shapers agree: on the whole URL, and on every header but `Host` and
    the hop-by-hop names, which agree too where the router owns them.
   */
  method ShapersAgree(
    incoming: Headers, target: Url, upstreamPath: string, rawQuery: string,
    credentials: map<string, string>, backendId: string, cfg: IdentityConfig, id: Option<Identity>)
    returns (proxied: Outgoing, created: Outgoing)
    requires forall k <- incoming :: k == ToLower(k)
    ensures fresh(proxied) && fresh(created)
    ensures UrlShaped(proxied, target, upstreamPath, rawQuery) && UrlShaped(created, target, upstreamPath, rawQuery)
    ensures forall n | cfg.Owns(n) || !(n == "host" || IsHopHeader(n)) ::
              Values(proxied.header, n) == Values(created.header, n)
  {
    proxied := new Outgoing(incoming);
    Director(proxied, target, upstreamPath, rawQuery, credentials, backendId, cfg, id);
    created := NewUpstreamRequest(incoming, target, upstreamPath, rawQuery, credentials, backendId, cfg, id);
    LowerNames();
    forall n | n != "host" && !IsHopHeader(n) && n != AUTHORIZATION ensures Kept(incoming, n) == Values(incoming, n) {
      if n in incoming {
        assert n == ToLower(n);
      }
    }
    KeptDropsAuthorization(incoming);
  }

  lemma KeptDropsAuthorization(incoming: Headers)
    ensures Kept(incoming, AUTHORIZATION) == []
  {
    assert ToLower(AUTHORIZATION) == ToLower("Authorization");
  }
}
