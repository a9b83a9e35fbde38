/** The router configuration, its declarative rules and the loops that check them. */
module Config {
  import opened Strings
  import opened Wrappers

  const VERSION := 1

  /** The wire value of a protocol; only the two named ones are valid. */
  type Protocol = string
  const WEBDRIVER: Protocol := "webdriver"
  const PLAYWRIGHT: Protocol := "playwright"

  datatype Quota = Quota(maxSessions: int)
  datatype User = User(name: string, passwordRef: string, quota: Quota)
  datatype Browser = Browser(name: string, versions: seq<string>, platforms: seq<string>, protocols: seq<Protocol>)
  datatype Credentials = Credentials(usernameRef: string, passwordRef: string)
  datatype HealthPolicy = HealthPolicy(enabled: bool, failureThreshold: int, cooldown: string)
  datatype BackendPool = BackendPool(
    id: string, endpoint: string, region: string, weight: int, protocols: seq<Protocol>,
    credentials: Option<Credentials>, health: HealthPolicy)
  datatype UpstreamIdentity = UpstreamIdentity(userHeader: string, adminHeader: string, secretRef: string)
  datatype Config = Config(
    version: int, users: seq<User>, guest: Option<Quota>, catalog: seq<Browser>, pools: seq<BackendPool>,
    adminTokenRef: string, upstreamIdentity: Option<UpstreamIdentity>)

  datatype Url = Url(scheme: string, host: string, hasUser: bool, path: string, rawQuery: string)

  /** The library functions the router calls but does not define. */
  datatype Library = Library(
    parseUrl: string -> Option<Url>,
    parseDuration: string -> Option<int>,
    cleanPath: string -> string)

  // ---- The rules ----

  predicate SecretRefOk(lib: Library, ref: string) {
    || (HasPrefix(ref, "env:") && ref != "env:")
    || (HasPrefix(ref, "file:") &&
        var path := TrimPrefix(ref, "file:");
        HasPrefix(path, "/") && lib.cleanPath(path) == path)
  }

  /** A secret is named by an environment variable or by an absolute, cleaned path, and in no other way. */
  lemma SecretRefForms(lib: Library, name: string, ref: string)
    ensures SecretRefOk(lib, "env:" + name) <==> name != ""
    ensures SecretRefOk(lib, "file:" + name) <==> name != "" && name[0] == '/' && lib.cleanPath(name) == name
    ensures !HasPrefix(ref, "env:") && !HasPrefix(ref, "file:") ==> !SecretRefOk(lib, ref)
  {
    assert TrimPrefix("file:" + name, "file:") == name;
    assert ("env:" + name)[0] == 'e' && ("file:" + name)[0] == 'f';
    assert name == "" ==> "env:" + name == "env:";
  }

  predicate QuotaOk(quota: Quota) {
    quota.maxSessions > 0
  }

  ghost predicate ProtocolsOk(protocols: seq<Protocol>) {
    protocols != [] && forall p <- protocols :: p == WEBDRIVER || p == PLAYWRIGHT
  }

  ghost predicate NoneEmpty(values: seq<string>) {
    "" !in values
  }

  predicate EndpointOk(lib: Library, raw: string) {
    raw != "" && lib.parseUrl(raw).Some? &&
    var url := lib.parseUrl(raw).value;
    (url.scheme == "http" || url.scheme == "https") && url.host != "" && !url.hasUser
  }

  predicate HealthOk(lib: Library, health: HealthPolicy) {
    health.failureThreshold >= 0 && (health.cooldown != "" ==> lib.parseDuration(health.cooldown).Some?)
  }

  /** What an endpoint must parse to. */
  lemma EndpointForms(
    lib: Library, raw: string, scheme: string, host: string, hasUser: bool, path: string, query: string)
    requires lib.parseUrl(raw) == Some(Url(scheme, host, hasUser, path, query))
    ensures EndpointOk(lib, raw) <==> raw != "" && scheme in {"http", "https"} && host != "" && !hasUser
    ensures forall other | lib.parseUrl(other) == None :: !EndpointOk(lib, other)
  {}

  /** No threshold and no cooldown are fine; what is given must make sense. */
  lemma HealthForms(lib: Library, enabled: bool, threshold: int, cooldown: string)
    ensures HealthOk(lib, HealthPolicy(enabled, threshold, cooldown)) <==>
              threshold >= 0 && (cooldown == "" || lib.parseDuration(cooldown) != None)
  {}

  /** Quotas, identities, users, browsers and pools one at a time, in their own fields. */
  lemma EntryForms(lib: Library, n: int, name: string, ref: string, admin: string)
    ensures QuotaOk(Quota(n)) <==> n >= 1
    ensures IdentityOk(lib, UpstreamIdentity(name, admin, ref)) <==> name != "" && (ref == "" || SecretRefOk(lib, ref))
    ensures UsersOk(lib, [User(name, ref, Quota(n))]) <==> name != "" && SecretRefOk(lib, ref) && n >= 1
  {
    assert User(name, ref, Quota(n)) in [User(name, ref, Quota(n))];
  }

  lemma BrowserForms(name: string, versions: seq<string>, platforms: seq<string>, protocols: seq<Protocol>)
    ensures BrowsersOk([Browser(name, versions, platforms, protocols)]) <==>
              && name != "" && versions != [] && "" !in versions && "" !in platforms
              && protocols != [] && forall p <- protocols :: p == "webdriver" || p == "playwright"
  {
    assert Browser(name, versions, platforms, protocols) in [Browser(name, versions, platforms, protocols)];
  }

  lemma PoolForms(lib: Library, pool: BackendPool)
    ensures PoolOk(lib, pool) <==>
              && pool.id != "" && EndpointOk(lib, pool.endpoint) && pool.region != "" && pool.weight >= 1
              && pool.protocols != [] && (forall p <- pool.protocols :: p == "webdriver" || p == "playwright")
              && (pool.credentials.None? || (SecretRefOk(lib, pool.credentials.value.usernameRef)
                                             && SecretRefOk(lib, pool.credentials.value.passwordRef)))
              && HealthOk(lib, pool.health)
  {}

  /** Lists add one rule to those of their entries: no name and no id twice. */
  lemma ListForms(lib: Library, users: seq<User>, browsers: seq<Browser>, pools: seq<BackendPool>)
    ensures UsersOk(lib, users) <==>
              (forall u <- users :: UsersOk(lib, [u]))
              && (forall i, j | 0 <= i < |users| && 0 <= j < |users| && i != j :: users[i].name != users[j].name)
    ensures BrowsersOk(browsers) <==>
              (forall b <- browsers :: BrowsersOk([b]))
              && (forall i, j | 0 <= i < |browsers| && 0 <= j < |browsers| && i != j ::
                    browsers[i].name != browsers[j].name)
    ensures PoolsOk(lib, pools) <==>
              (forall p <- pools :: PoolOk(lib, p))
              && (forall i, j | 0 <= i < |pools| && 0 <= j < |pools| && i != j :: pools[i].id != pools[j].id)
  {
    assert forall u <- users :: u in [u];
    assert forall b <- browsers :: b in [b];
  }

  /** What the router may rely on once a configuration is accepted. */
  lemma AcceptedPools(lib: Library, cfg: Config, pool: BackendPool)
    requires ValidConfig(lib, cfg)
    ensures cfg.version == 1 && cfg.pools != [] && cfg.catalog != []
    ensures pool in cfg.pools ==>
              && pool.id != "" && pool.region != "" && pool.weight >= 1 && pool.health.failureThreshold >= 0
              && pool.protocols != [] && (forall p <- pool.protocols :: p == "webdriver" || p == "playwright")
              && lib.parseUrl(pool.endpoint).Some?
              && lib.parseUrl(pool.endpoint).value.scheme in {"http", "https"}
              && lib.parseUrl(pool.endpoint).value.host != "" && !lib.parseUrl(pool.endpoint).value.hasUser
  {
    if pool in cfg.pools {
      assert PoolOk(lib, pool);
    }
  }

  ghost predicate UsersOk(lib: Library, users: seq<User>) {
    && (forall u <- users :: u.name != "" && SecretRefOk(lib, u.passwordRef) && QuotaOk(u.quota))
    && (forall i, j | 0 <= i < j < |users| :: users[i].name != users[j].name)
  }

  ghost predicate BrowsersOk(browsers: seq<Browser>) {
    && (forall b <- browsers :: b.name != "" && b.versions != [] && NoneEmpty(b.versions)
                                && NoneEmpty(b.platforms) && ProtocolsOk(b.protocols))
    && (forall i, j | 0 <= i < j < |browsers| :: browsers[i].name != browsers[j].name)
  }

  ghost predicate PoolOk(lib: Library, pool: BackendPool) {
    && pool.id != "" && EndpointOk(lib, pool.endpoint) && pool.region != "" && pool.weight > 0
    && ProtocolsOk(pool.protocols)
    && (pool.credentials.Some? ==> SecretRefOk(lib, pool.credentials.value.usernameRef)
                                   && SecretRefOk(lib, pool.credentials.value.passwordRef))
    && HealthOk(lib, pool.health)
  }

  ghost predicate DistinctIds(pools: seq<BackendPool>) {
    forall i, j | 0 <= i < j < |pools| :: pools[i].id != pools[j].id
  }

  ghost predicate PoolsOk(lib: Library, pools: seq<BackendPool>) {
    (forall p <- pools :: PoolOk(lib, p)) && DistinctIds(pools)
  }

  predicate IdentityOk(lib: Library, ui: UpstreamIdentity) {
    ui.userHeader != "" && (ui.secretRef != "" ==> SecretRefOk(lib, ui.secretRef))
  }

  /** A configuration the router may serve. */
  ghost predicate ValidConfig(lib: Library, cfg: Config) {
    && cfg.version == VERSION
    && (cfg.users != [] || cfg.guest.Some?)
    && UsersOk(lib, cfg.users)
    && (cfg.guest.Some? ==> QuotaOk(cfg.guest.value))
    && cfg.catalog != [] && BrowsersOk(cfg.catalog)
    && cfg.pools != [] && PoolsOk(lib, cfg.pools)
    && (cfg.adminTokenRef != "" ==> SecretRefOk(lib, cfg.adminTokenRef))
    && (cfg.upstreamIdentity.Some? ==> IdentityOk(lib, cfg.upstreamIdentity.value))
  }

  datatype ConfigError =
    | BadVersion
    | NoPrincipal
    | BadUser(index: nat)
    | BadGuest
    | NoBrowsers
    | BadBrowser(index: nat)
    | NoPools
    | BadPool(index: nat)
    | BadAdminToken
    | BadIdentity

  /** The error names the first offending rule, and within a list the first offending entry. */
  ghost predicate FirstViolation(lib: Library, cfg: Config, e: ConfigError) {
    var principals := cfg.version == VERSION && (cfg.users != [] || cfg.guest.Some?);
    var users := principals && UsersOk(lib, cfg.users);
    var guest := users && (cfg.guest.Some? ==> QuotaOk(cfg.guest.value));
    var browsers := guest && cfg.catalog != [] && BrowsersOk(cfg.catalog);
    var pools := browsers && cfg.pools != [] && PoolsOk(lib, cfg.pools);
    var admin := pools && (cfg.adminTokenRef != "" ==> SecretRefOk(lib, cfg.adminTokenRef));
    match e
    case BadVersion => cfg.version != VERSION
    case NoPrincipal => cfg.version == VERSION && cfg.users == [] && cfg.guest.None?
    case BadUser(i) =>
      principals && i < |cfg.users| && UsersOk(lib, cfg.users[..i]) && !UsersOk(lib, cfg.users[..i + 1])
    case BadGuest => users && cfg.guest.Some? && !QuotaOk(cfg.guest.value)
    case NoBrowsers => guest && cfg.catalog == []
    case BadBrowser(i) =>
      guest && i < |cfg.catalog| && BrowsersOk(cfg.catalog[..i]) && !BrowsersOk(cfg.catalog[..i + 1])
    case NoPools => browsers && cfg.pools == []
    case BadPool(i) =>
      browsers && i < |cfg.pools| && PoolsOk(lib, cfg.pools[..i]) && !PoolsOk(lib, cfg.pools[..i + 1])
    case BadAdminToken => pools && cfg.adminTokenRef != "" && !SecretRefOk(lib, cfg.adminTokenRef)
    case BadIdentity =>
      admin && cfg.upstreamIdentity.Some? && !IdentityOk(lib, cfg.upstreamIdentity.value)
  }

  // ---- The loops ----

  method ValidateStringList(values: seq<string>) returns (ok: bool)
    ensures ok <==> NoneEmpty(values)
  {
    for i := 0 to |values|
      invariant NoneEmpty(values[..i])
    {
      if values[i] == "" {
        return false;
      }
    }
    assert values[..|values|] == values;
    return true;
  }

  method ValidateProtocols(protocols: seq<Protocol>) returns (ok: bool)
    ensures ok <==> ProtocolsOk(protocols)
  {
    if protocols == [] {
      return false;
    }
    for i := 0 to |protocols|
      invariant forall p <- protocols[..i] :: p == WEBDRIVER || p == PLAYWRIGHT
    {
      assert protocols[..i + 1] == protocols[..i] + [protocols[i]];
      if protocols[i] != WEBDRIVER && protocols[i] != PLAYWRIGHT {
        assert protocols[i] in protocols;
        return false;
      }
    }
    assert protocols[..|protocols|] == protocols;
    return true;
  }

  method ValidateUsers(lib: Library, users: seq<User>) returns (bad: Option<nat>)
    ensures bad.None? <==> UsersOk(lib, users)
    ensures bad.Some? ==>
              bad.value < |users| && UsersOk(lib, users[..bad.value]) && !UsersOk(lib, users[..bad.value + 1])
  {
    var seen: set<string> := {};
    for i := 0 to |users|
      invariant seen == set u <- users[..i] :: u.name
      invariant UsersOk(lib, users[..i])
    {
      var user := users[i];
      assert users[..i + 1] == users[..i] + [user];
      if user.name == "" || user.name in seen || !SecretRefOk(lib, user.passwordRef) || !QuotaOk(user.quota) {
        assert user in users[..i + 1] && user in users;
        if user.name in seen {
          var k :| 0 <= k < i && users[k].name == user.name;
          assert users[..i + 1][k].name == users[..i + 1][i].name;
        }
        return Some(i);
      }
      seen := seen + {user.name};
    }
    assert users[..|users|] == users;
    return None;
  }

  method ValidateCatalog(browsers: seq<Browser>) returns (bad: Option<nat>)
    ensures bad.None? <==> BrowsersOk(browsers)
    ensures bad.Some? ==>
              bad.value < |browsers| && BrowsersOk(browsers[..bad.value]) && !BrowsersOk(browsers[..bad.value + 1])
  {
    var seen: set<string> := {};
    for i := 0 to |browsers|
      invariant seen == set b <- browsers[..i] :: b.name
      invariant BrowsersOk(browsers[..i])
    {
      var browser := browsers[i];
      assert browsers[..i + 1] == browsers[..i] + [browser];
      assert browser in browsers[..i + 1] && browser in browsers;
      if browser.name == "" {
        return Some(i);
      }
      if browser.name in seen {
        var k :| 0 <= k < i && browsers[k].name == browser.name;
        assert browsers[..i + 1][k].name == browsers[..i + 1][i].name;
        return Some(i);
      }
      seen := seen + {browser.name};
      if browser.versions == [] {
        return Some(i);
      }
      var versionsOk := ValidateStringList(browser.versions);
      var platformsOk := ValidateStringList(browser.platforms);
      var protocolsOk := ValidateProtocols(browser.protocols);
      if !versionsOk || !platformsOk || !protocolsOk {
        return Some(i);
      }
    }
    assert browsers[..|browsers|] == browsers;
    return None;
  }

  method ValidateBackendPools(lib: Library, pools: seq<BackendPool>) returns (bad: Option<nat>)
    ensures bad.None? <==> PoolsOk(lib, pools)
    ensures bad.Some? ==>
              bad.value < |pools| && PoolsOk(lib, pools[..bad.value]) && !PoolsOk(lib, pools[..bad.value + 1])
  {
    var seen: set<string> := {};
    for i := 0 to |pools|
      invariant seen == set p <- pools[..i] :: p.id
      invariant PoolsOk(lib, pools[..i])
    {
      var pool := pools[i];
      assert pools[..i + 1] == pools[..i] + [pool];
      assert pool in pools[..i + 1] && pool in pools;
      if pool.id == "" {
        return Some(i);
      }
      if pool.id in seen {
        var k :| 0 <= k < i && pools[k].id == pool.id;
        assert pools[..i + 1][k].id == pools[..i + 1][i].id;
        return Some(i);
      }
      seen := seen + {pool.id};
      var protocolsOk := ValidateProtocols(pool.protocols);
      if !EndpointOk(lib, pool.endpoint) || pool.region == "" || pool.weight <= 0 || !protocolsOk {
        return Some(i);
      }
      if pool.credentials.Some? &&
         !(SecretRefOk(lib, pool.credentials.value.usernameRef) &&
           SecretRefOk(lib, pool.credentials.value.passwordRef)) {
        return Some(i);
      }
      if !HealthOk(lib, pool.health) {
        return Some(i);
      }
    }
    assert pools[..|pools|] == pools;
    return None;
  }

  /** Accepts exactly the valid configurations and blames the first thing that is wrong. */
  method Validate(lib: Library, cfg: Config) returns (err: Option<ConfigError>)
    ensures err.None? <==> ValidConfig(lib, cfg)
    ensures err.Some? ==> FirstViolation(lib, cfg, err.value)
  {
    if cfg.version != VERSION {
      return Some(BadVersion);
    }
    if cfg.users == [] && cfg.guest.None? {
      return Some(NoPrincipal);
    }
    var badUser := ValidateUsers(lib, cfg.users);
    if badUser.Some? {
      return Some(BadUser(badUser.value));
    }
    if cfg.guest.Some? && !QuotaOk(cfg.guest.value) {
      return Some(BadGuest);
    }
    if cfg.catalog == [] {
      return Some(NoBrowsers);
    }
    var badBrowser := ValidateCatalog(cfg.catalog);
    if badBrowser.Some? {
      return Some(BadBrowser(badBrowser.value));
    }
    if cfg.pools == [] {
      return Some(NoPools);
    }
    var badPool := ValidateBackendPools(lib, cfg.pools);
    if badPool.Some? {
      return Some(BadPool(badPool.value));
    }
    if cfg.adminTokenRef != "" && !SecretRefOk(lib, cfg.adminTokenRef) {
      return Some(BadAdminToken);
    }
    if cfg.upstreamIdentity.Some? && !IdentityOk(lib, cfg.upstreamIdentity.value) {
      return Some(BadIdentity);
    }
    return None;
  }
}
