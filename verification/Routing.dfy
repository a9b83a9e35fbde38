/** Backend selection: capability expansion, catalog matching, health filtering, weighted choice. */
module Routing {
  import opened Wrappers
  import opened Strings
  import opened Config
  import opened Json
  import HealthSpec
  import Health

  datatype Request = Request(
    protocol: Protocol, browserName: string, version: string, platform: string, deviceName: string, region: string)

  // ---- Capabilities ----

  type Caps = map<string, Json>

  function ObjectValue(values: Caps, key: string): Option<Caps> {
    if key in values && values[key].Object? then Some(values[key].fields) else None
  }

  function ArrayValue(values: Caps, key: string): Option<seq<Json>> {
    if key in values && values[key].Array? then Some(values[key].items) else None
  }

  /** Anything but a string counts as absent. */
  function StringValue(values: Caps, key: string): string {
    if key in values && values[key].String? then values[key].text else ""
  }

  function FirstStringValue(values: Caps, keys: seq<string>): string {
    if keys == [] then ""
    else if StringValue(values, keys[0]) != "" then StringValue(values, keys[0])
    else FirstStringValue(values, keys[1..])
  }

  function RequestFromCapabilities(caps: Caps): Request {
    var browser := StringValue(caps, "browserName");
    var device := FirstStringValue(caps, ["deviceName", "appium:deviceName"]);
    Request(
      WEBDRIVER,
      if browser == "" then device else browser,
      FirstStringValue(caps, ["browserVersion", "version"]),
      FirstStringValue(caps, ["platformName", "platform"]),
      device,
      FirstStringValue(caps, ["gridlane:region", "selenoid:region", "region"]))
  }

  /** `alwaysMatch` overridden by one `firstMatch` entry; only objects can be merged. */
  function MergedEntry(always: Caps, entry: Json): Option<Caps> {
    if entry.Object? then Some(always + entry.fields) else None
  }

  /** What the client offers, entry by entry. */
  function Entries(payload: Caps): seq<Option<Caps>> {
    match ObjectValue(payload, "capabilities")
    case Some(capabilities) =>
      var always := match ObjectValue(capabilities, "alwaysMatch") case Some(a) => a case None => map[];
      var first := match ArrayValue(capabilities, "firstMatch") case Some(f) => f case None => [];
      if first == [] then [Some(if always == map[] then capabilities else always)]
      else seq(|first|, i requires 0 <= i < |first| => MergedEntry(always, first[i]))
    case None =>
      match ObjectValue(payload, "desiredCapabilities")
      case Some(desired) => [Some(desired)]
      case None => []
  }

  /** What one entry asks for, if it is usable. */
  function Wanted(entry: Option<Caps>): Option<Request> {
    match entry
    case None => None
    case Some(caps) =>
      var req := RequestFromCapabilities(caps);
      if req.browserName == "" then None else Some(req)
  }

  function RequestAt(payload: Caps, i: nat): Option<Request>
    requires i < |Entries(payload)|
  {
    Wanted(Entries(payload)[i])
  }

  function Requests(payload: Caps): seq<Option<Request>> {
    seq(|Entries(payload)|, i requires 0 <= i < |Entries(payload)| => RequestAt(payload, i))
  }

  method Merge(base: Caps, over: Caps) returns (merged: Caps)
    ensures merged == base + over
  {
    merged := base;
    var todo := over.Keys;
    while todo != {}
      invariant todo <= over.Keys
      invariant merged == base + (over - todo)
      decreases todo
    {
      var key :| key in todo;
      todo := todo - {key};
      merged := merged[key := over[key]];
    }
  }

  method CapabilityCandidates(payload: Caps) returns (r: Option<seq<Caps>>)
    ensures r.None? <==> Somes(Entries(payload)) == []
    ensures r.Some? ==> r.value == Somes(Entries(payload))
  {
    ghost var entries := Entries(payload);
    var capabilities := ObjectValue(payload, "capabilities");
    if capabilities.Some? {
      var always := ObjectValue(capabilities.value, "alwaysMatch");
      var base := if always.Some? then always.value else map[];
      var firstMatch := ArrayValue(capabilities.value, "firstMatch");
      if firstMatch.None? || firstMatch.value == [] {
        var only := if base == map[] then capabilities.value else base;
        assert entries == [Some(only)] && entries[..0] == [];
        return Some([only]);
      }
      var first := firstMatch.value;
      var candidates: seq<Caps> := [];
      for i := 0 to |first|
        invariant candidates == Somes(entries[..i])
      {
        assert entries[i] == MergedEntry(base, first[i]);
        SomesStep(entries, i);
        if first[i].Object? {
          var merged := Merge(base, first[i].fields);
          candidates := candidates + [merged];
        }
      }
      assert entries[..|first|] == entries;
      return if candidates == [] then None else Some(candidates);
    }
    var desired := ObjectValue(payload, "desiredCapabilities");
    if desired.Some? {
      assert entries == [desired] && entries[..0] == [];
      return Some([desired.value]);
    }
    return None;
  }

  /** The usable requests of a list of merged capabilities. */
  function Usable(caps: seq<Caps>): seq<Request> {
    if caps == [] then []
    else
      var n := |caps| - 1;
      var req := RequestFromCapabilities(caps[n]);
      Usable(caps[..n]) + if req.browserName == "" then [] else [req]
  }

  lemma UsableOne(caps: seq<Caps>, one: Caps)
    ensures var req := RequestFromCapabilities(one);
            Usable(caps + [one]) == if req.browserName == "" then Usable(caps) else Usable(caps) + [req]
  {
    assert (caps + [one])[..|caps|] == caps;
  }

  lemma {:induction false} UsableIsSomes(entries: seq<Option<Caps>>, requests: seq<Option<Request>>)
    requires |entries| == |requests| && forall i | 0 <= i < |entries| :: requests[i] == Wanted(entries[i])
    ensures Usable(Somes(entries)) == Somes(requests)
  {
    if entries != [] {
      var n := |entries| - 1;
      UsableIsSomes(entries[..n], requests[..n]);
      SomesLast(entries);
      SomesLast(requests);
      if entries[n].Some? {
        UsableOne(Somes(entries[..n]), entries[n].value);
      }
    }
  }

  method CollectRequests(candidates: seq<Caps>) returns (requests: seq<Request>)
    ensures requests == Usable(candidates)
  {
    requests := [];
    for i := 0 to |candidates|
      invariant requests == Usable(candidates[..i])
    {
      assert candidates[..i + 1] == candidates[..i] + [candidates[i]];
      UsableOne(candidates[..i], candidates[i]);
      var req := RequestFromCapabilities(candidates[i]);
      if req.browserName != "" {
        requests := requests + [req];
      }
    }
    assert candidates[..|candidates|] == candidates;
  }

  /** Capabilities are decoded through a limit of their own. */
  const CAPABILITIES_LIMIT := 0x10_0000

  /** What the decoder yields of a document that ends after `end` bytes; `None` if it is no JSON object. */
  function Decoded(document: Option<Caps>, end: nat): Option<Caps> {
    if end > CAPABILITIES_LIMIT then None else document
  }

  /** Drops unusable entries and keeps the client's order; fails when nothing is left, or past the limit. */
  method ParseWebDriverNewSession(document: Option<Caps>, end: nat) returns (r: Option<seq<Request>>)
    ensures r.Some? <==> end <= 1_048_576 && document.Some? && Somes(Requests(document.value)) != []
    ensures r.Some? ==> r.value == Somes(Requests(document.value))
  {
    var payload := Decoded(document, end);
    if payload.None? {
      return None;
    }
    var candidates := CapabilityCandidates(payload.value);
    UsableIsSomes(Entries(payload.value), Requests(payload.value));
    if candidates.None? {
      return None;
    }
    var requests := CollectRequests(candidates.value);
    return if requests == [] then None else Some(requests);
  }

  /** Browser and version are the first two segments after the prefix; anything further is ignored. */
  function ParsePlaywrightPath(path: string): Option<Request> {
    if !HasPrefix(path, "/playwright/") then None
    else
      match Cut(TrimPrefix(path, "/playwright/"), '/')
      case None => None
      case Some((browser, rest)) =>
        var version := match Cut(rest, '/') case Some((v, _)) => v case None => rest;
        if browser == "" || version == "" then None
        else Some(Request(PLAYWRIGHT, browser, version, "", "", ""))
  }

  /** After two segments a path may end or go on. */
  predicate IsTail(t: string) {
    t == "" || HasPrefix(t, "/")
  }

  ghost predicate PlaywrightForm(path: string, browser: string, version: string, tail: string) {
    && browser != "" && '/' !in browser && version != "" && '/' !in version && IsTail(tail)
    && path == "/playwright/" + browser + "/" + version + tail
  }

  /** The first segment is the browser, the second the version, and nothing else is asked for. */
  lemma PlaywrightPathAsks(path: string, browser: string, version: string, tail: string)
    requires PlaywrightForm(path, browser, version, tail)
    ensures ParsePlaywrightPath(path) == Some(Request("playwright", browser, version, "", "", ""))
  {
    var rest := version + tail;
    var below := browser + ['/'] + rest;
    assert path == "/playwright/" + below;
    assert TrimPrefix("/playwright/" + below, "/playwright/") == below;
    CutAt(browser, '/', rest);
    if tail != "" {
      assert rest == version + ['/'] + tail[1..];
      CutAt(version, '/', tail[1..]);
    } else {
      assert rest == version;
    }
  }

  /** No other path asks for anything. */
  lemma OnlyPlaywrightPathsAsk(path: string)
    ensures ParsePlaywrightPath(path).Some? ==>
              exists browser, version, tail :: PlaywrightForm(path, browser, version, tail)
  {
    if ParsePlaywrightPath(path).Some? {
      var below := TrimPrefix(path, "/playwright/");
      var (browser, rest) := Cut(below, '/').value;
      var (version, tail) := match Cut(rest, '/') case Some((v, t)) => (v, "/" + t) case None => (rest, "");
      assert rest == version + tail && path == "/playwright/" + below;
      Regroup("/playwright/", browser, "/", version, tail);
      assert PlaywrightForm(path, browser, version, tail);
    }
  }

  lemma Regroup(prefix: string, a: string, slash: string, b: string, tail: string)
    ensures prefix + (a + slash + (b + tail)) == prefix + a + slash + b + tail
  {}

  // ---- Catalog ----

  /** One-way: the requested value must start with a declared one, ignoring case. */
  ghost predicate PrefixMatches(values: seq<string>, requested: string) {
    exists v <- values :: HasPrefix(ToLower(requested), ToLower(v))
  }

  ghost predicate BrowserServes(browser: Browser, req: Request) {
    && EqualFold(browser.name, req.browserName)
    && req.protocol in browser.protocols
    && (req.version != "" ==> PrefixMatches(browser.versions, req.version))
    && (req.platform != "" && browser.platforms != [] ==> PrefixMatches(browser.platforms, req.platform))
  }

  ghost predicate Supported(catalog: seq<Browser>, req: Request) {
    exists b <- catalog :: BrowserServes(b, req)
  }

  /** A declared value followed by anything is served; one that is cut short is not. */
  lemma DeclaredPrefixServes(values: seq<string>, declared: string, more: string, requested: string)
    ensures declared in values ==> PrefixMatches(values, declared + more)
    ensures (forall v <- values :: |requested| < |v|) ==> !PrefixMatches(values, requested)
  {
    assert HasPrefix(ToLower(declared + more), ToLower(declared));
  }

  /** What a catalog entry serves: its name in any case, one of its protocols, and what it declares, if anything. */
  lemma EntryServes(browser: Browser, version: string, more: string, req: Request)
    ensures BrowserServes(browser, req) ==>
              EqualFold(browser.name, req.browserName) && req.protocol in browser.protocols
    ensures (EqualFold(browser.name, req.browserName) && req.protocol in browser.protocols
             && (req.version == "" || (version in browser.versions && req.version == version + more))
             && (req.platform == "" || browser.platforms == [])) ==> BrowserServes(browser, req)
    ensures req.version != "" && (forall v <- browser.versions :: |req.version| < |v|) ==> !BrowserServes(browser, req)
    ensures req.platform != "" && browser.platforms != [] && (forall v <- browser.platforms :: |req.platform| < |v|) ==>
              !BrowserServes(browser, req)
  {
    DeclaredPrefixServes(browser.versions, version, more, req.version);
    DeclaredPrefixServes(browser.platforms, "", "", req.platform);
  }

  method PrefixMatchAny(values: seq<string>, requested: string) returns (r: bool)
    ensures r <==> PrefixMatches(values, requested)
  {
    for i := 0 to |values|
      invariant forall j | 0 <= j < i :: !HasPrefix(ToLower(requested), ToLower(values[j]))
    {
      if HasPrefix(ToLower(requested), ToLower(values[i])) {
        assert values[i] in values;
        return true;
      }
    }
    return false;
  }

  method SupportsProtocol(protocols: seq<Protocol>, protocol: Protocol) returns (r: bool)
    ensures r <==> protocol in protocols
  {
    for i := 0 to |protocols|
      invariant protocol !in protocols[..i]
    {
      if protocols[i] == protocol {
        return true;
      }
    }
    return false;
  }

  method CatalogSupports(catalog: seq<Browser>, req: Request) returns (r: bool)
    ensures r <==> Supported(catalog, req)
  {
    for i := 0 to |catalog|
      invariant forall j | 0 <= j < i :: !BrowserServes(catalog[j], req)
    {
      var browser := catalog[i];
      if !EqualFold(browser.name, req.browserName) {
        continue;
      }
      var speaks := SupportsProtocol(browser.protocols, req.protocol);
      if !speaks {
        continue;
      }
      if req.version != "" {
        var known := PrefixMatchAny(browser.versions, req.version);
        if !known {
          continue;
        }
      }
      if req.platform != "" && browser.platforms != [] {
        var known := PrefixMatchAny(browser.platforms, req.platform);
        if !known {
          continue;
        }
      }
      assert browser in catalog;
      return true;
    }
    return false;
  }

  // ---- Candidate pools ----

  /**
    What the selector knows of health: nothing at all, the manager's state at
    one instant, or the backends that were each found up when they were read.
   */
  datatype View = Unmonitored | At(cells: HealthSpec.Model, now: int) | Readings(up: set<string>)

  /** What a manager, or its absence, shows at one instant. */
  ghost function ViewOf(health: Health.Manager?, now: int): View
    reads health
  {
    if health == null then Unmonitored else At(health.cells, now)
  }

  predicate IsUp(view: View, id: string) {
    match view
    case Unmonitored => true
    case At(cells, now) => HealthSpec.Available(cells, id, now)
    case Readings(up) => id in up
  }

  /**
    Where a pass over the pools reads health from: nowhere, a manager that stays
    as it is meanwhile, or a manager that other requests may change between the
    reads; there `answer(i)` is what was read for pool `i`.
   */
  datatype Source = NoHealth | Still(manager: Health.Manager, now: int) | Moving(answer: int -> bool)

  ghost function Seen(source: Source, pools: seq<BackendPool>): View
    reads if source.Still? then {source.manager} else {}
  {
    match source
    case NoHealth => Unmonitored
    case Still(manager, now) => At(manager.cells, now)
    case Moving(answer) => Readings(set i | 0 <= i < |pools| && answer(i) :: pools[i].id)
  }

  /** With distinct ids a pool counts as up exactly by its own reading. */
  lemma OwnReading(answer: int -> bool, pools: seq<BackendPool>, i: nat)
    requires DistinctIds(pools) && i < |pools|
    ensures IsUp(Readings(set j | 0 <= j < |pools| && answer(j) :: pools[j].id), pools[i].id) <==> answer(i)
  {
    assert forall j | 0 <= j < |pools| && j != i :: pools[j].id != pools[i].id;
  }

  predicate Eligible(pool: BackendPool, req: Request, view: View) {
    IsUp(view, pool.id) && pool.weight > 0 && req.protocol in pool.protocols
  }

  predicate InRegion(pool: BackendPool, req: Request) {
    req.region == "" || pool.region == req.region
  }

  function Filter(pools: seq<BackendPool>, req: Request, view: View, regionAware: bool): seq<BackendPool> {
    if pools == [] then []
    else
      var n := |pools| - 1;
      Filter(pools[..n], req, view, regionAware) +
      if Eligible(pools[n], req, view) && (regionAware ==> InRegion(pools[n], req)) then [pools[n]] else []
  }

  /**
    The in-region pools found eligible in the first pass if there are any, otherwise
    all found eligible in the second.
   */
  function ListAcross(pools: seq<BackendPool>, req: Request, first: View, second: View): seq<BackendPool> {
    var near := Filter(pools, req, first, true);
    if near == [] && req.region != "" then Filter(pools, req, second, false) else near
  }

  /** The in-region eligible pools if there are any, otherwise all eligible pools. */
  function CandidateList(pools: seq<BackendPool>, req: Request, view: View): seq<BackendPool> {
    ListAcross(pools, req, view, view)
  }

  /** Every listed pool was up when it was read, in the pass that listed it. */
  lemma ListedWereUp(pools: seq<BackendPool>, req: Request, first: View, second: View)
    ensures var list := ListAcross(pools, req, first, second);
            && PositiveWeights(list)
            && forall p <- list ::
                 p in pools && ((Eligible(p, req, first) && InRegion(p, req))
                                || (Eligible(p, req, second) && Filter(pools, req, first, true) == []))
  {
    FilterMembers(pools, req, first, true);
    FilterMembers(pools, req, second, false);
  }

  lemma {:induction false} FilterMembers(pools: seq<BackendPool>, req: Request, view: View, regionAware: bool)
    ensures forall p :: p in Filter(pools, req, view, regionAware) <==>
                        p in pools && Eligible(p, req, view) && (regionAware ==> InRegion(p, req))
  {
    if pools != [] {
      var n := |pools| - 1;
      FilterMembers(pools[..n], req, view, regionAware);
      assert pools == pools[..n] + [pools[n]];
    }
  }

  lemma {:induction false} FilterDistinct(pools: seq<BackendPool>, req: Request, view: View, regionAware: bool)
    requires DistinctIds(pools)
    ensures DistinctIds(Filter(pools, req, view, regionAware))
  {
    if pools != [] {
      var n := |pools| - 1;
      FilterDistinct(pools[..n], req, view, regionAware);
      FilterMembers(pools[..n], req, view, regionAware);
      forall p <- Filter(pools[..n], req, view, regionAware) ensures p.id != pools[n].id {
        var i :| 0 <= i < n && pools[i] == p;
      }
    }
  }

  /** Membership in the candidate list, pool by pool. */
  lemma CandidateMembers(pools: seq<BackendPool>, req: Request, view: View)
    ensures forall p :: p in CandidateList(pools, req, view) <==>
                        && p in pools && Eligible(p, req, view)
                        && (InRegion(p, req) || forall q <- pools :: !(Eligible(q, req, view) && InRegion(q, req)))
    ensures DistinctIds(pools) ==> DistinctIds(CandidateList(pools, req, view))
  {
    FilterMembers(pools, req, view, true);
    FilterMembers(pools, req, view, false);
    if DistinctIds(pools) {
      FilterDistinct(pools, req, view, true);
      FilterDistinct(pools, req, view, false);
    }
    var near := Filter(pools, req, view, true);
    if near != [] {
      assert near[0] in near;
    }
  }

  // ---- Weighted choice ----

  function Total(pools: seq<BackendPool>): int {
    if pools == [] then 0 else Total(pools[..|pools| - 1]) + pools[|pools| - 1].weight
  }

  ghost predicate PositiveWeights(pools: seq<BackendPool>) {
    forall p <- pools :: p.weight > 0
  }

  lemma {:induction false} TotalMonotone(pools: seq<BackendPool>, i: nat)
    requires PositiveWeights(pools) && i <= |pools|
    ensures 0 <= Total(pools[..i]) <= Total(pools)
    ensures i < |pools| ==> Total(pools[..i]) < Total(pools)
    decreases |pools|
  {
    var n := |pools| - 1;
    if i == |pools| {
      assert pools[..i] == pools;
      if pools != [] {
        TotalMonotone(pools[..n], n);
        assert pools[..n][..n] == pools[..n];
      }
    } else {
      assert pools[..i] == pools[..n][..i];
      TotalMonotone(pools[..n], i);
      assert pools[n] in pools;
    }
  }

  /** The draw `pick` falls in the slot of pool `i`. */
  ghost predicate InSlot(pools: seq<BackendPool>, pick: int, i: int) {
    0 <= i < |pools| && Total(pools[..i]) <= pick < Total(pools[..i + 1])
  }

  lemma SlotsOrdered(pools: seq<BackendPool>, i: nat, j: nat)
    requires PositiveWeights(pools) && i < j <= |pools|
    ensures Total(pools[..i + 1]) <= Total(pools[..j])
  {
    TotalMonotone(pools[..j], i + 1);
    assert pools[..j][..i + 1] == pools[..i + 1];
  }

  lemma SlotUnique(pools: seq<BackendPool>, pick: int, i: int, j: int)
    requires PositiveWeights(pools) && InSlot(pools, pick, i) && InSlot(pools, pick, j)
    ensures i == j
  {
    if i < j {
      SlotsOrdered(pools, i, j);
    } else if j < i {
      SlotsOrdered(pools, j, i);
    }
  }

  /** The generator answers every positive bound with a number below it. */
  ghost predicate FairDraw(draw: int -> int) {
    forall n | n > 0 :: 0 <= draw(n) < n
  }

  /**
    Subtracts its way through the weights. `draw(n)` is the generator's answer
    for the bound `n`. The loop always returns: the fallback after it is dead.
   */
  method Weighted(pools: seq<BackendPool>, draw: int -> int) returns (r: BackendPool)
    requires pools != [] && PositiveWeights(pools)
    requires FairDraw(draw)
    ensures Total(pools) > 0
    ensures exists i :: InSlot(pools, draw(Total(pools)), i) && r == pools[i]
  {
    var total := 0;
    for i := 0 to |pools|
      invariant total == Total(pools[..i])
    {
      assert pools[..i + 1][..i] == pools[..i];
      total := total + pools[i].weight;
    }
    assert pools[..|pools|] == pools;
    TotalMonotone(pools, 0);
    var pick: int := draw(total);
    for i := 0 to |pools|
      invariant pick == draw(total) - Total(pools[..i]) >= 0
    {
      assert pools[..i + 1][..i] == pools[..i];
      if pick < pools[i].weight {
        assert InSlot(pools, draw(Total(pools)), i);
        return pools[i];
      }
      pick := pick - pools[i].weight;
    }
    assert false;
  }

  datatype SelectError = NoRequests | CatalogMiss | NoPool

  /** Why an unsatisfiable request fails. */
  ghost function Diagnosis(catalog: seq<Browser>, req: Request): SelectError {
    if Supported(catalog, req) then NoPool else CatalogMiss
  }

  /** Catalog support and an eligible pool: what it takes to serve a request. */
  ghost predicate Satisfiable(catalog: seq<Browser>, pools: seq<BackendPool>, req: Request, view: View) {
    Supported(catalog, req) && exists p <- pools :: Eligible(p, req, view)
  }

  lemma CandidatesNonempty(pools: seq<BackendPool>, req: Request, view: View)
    ensures CandidateList(pools, req, view) != [] <==> exists p <- pools :: Eligible(p, req, view)
    ensures PositiveWeights(CandidateList(pools, req, view))
  {
    var list := CandidateList(pools, req, view);
    CandidateMembers(pools, req, view);
    FilterMembers(pools, req, view, true);
    FilterMembers(pools, req, view, false);
    if list != [] {
      assert list[0] in list;
    }
  }

  /** The pool that request `req` gets when the generator answers with `pick`. */
  ghost predicate Chosen(pools: seq<BackendPool>, req: Request, view: View, pick: int, pool: BackendPool) {
    var list := CandidateList(pools, req, view);
    exists i :: InSlot(list, pick, i) && pool == list[i]
  }

  /** The bound that the generator is asked about. */
  function Bound(pools: seq<BackendPool>, req: Request, view: View): int {
    Total(CandidateList(pools, req, view))
  }

  class Selector {
    const catalog: seq<Browser>
    const pools: seq<BackendPool>

    constructor (catalog: seq<Browser>, pools: seq<BackendPool>)
      ensures this.catalog == catalog && this.pools == pools
    {
      this.catalog, this.pools := catalog, pools;
    }

    method Candidates(req: Request, source: Source, regionAware: bool) returns (matches: seq<BackendPool>)
      requires source.Still? ==> source.manager.Valid()
      requires source.Moving? ==> DistinctIds(pools)
      ensures matches == Filter(pools, req, Seen(source, pools), regionAware)
    {
      matches := [];
      for i := 0 to |pools|
        invariant matches == Filter(pools[..i], req, Seen(source, pools), regionAware)
      {
        var pool := pools[i];
        assert pools[..i + 1][..i] == pools[..i];
        if regionAware && req.region != "" && pool.region != req.region {
          continue;
        }
        var up := Read(source, i);
        if !up {
          continue;
        }
        if pool.weight <= 0 {
          continue;
        }
        var speaks := SupportsProtocol(pool.protocols, req.protocol);
        if !speaks {
          continue;
        }
        matches := matches + [pool];
      }
      assert pools[..|pools|] == pools;
    }

    /** One reading of one pool's health; without a manager every pool passes. */
    method Read(source: Source, i: nat) returns (up: bool)
      requires i < |pools|
      requires source.Still? ==> source.manager.Valid()
      requires source.Moving? ==> DistinctIds(pools)
      ensures up == IsUp(Seen(source, pools), pools[i].id)
    {
      match source
      case NoHealth => up := true;
      case Still(manager, now) => up := manager.Available(pools[i].id, now);
      case Moving(answer) =>
        OwnReading(answer, pools, i);
        up := answer(i);
    }

    /**
      Selection with a pass of readings in region and, if that finds nothing, a
      second pass everywhere. Whatever other requests do between the readings,
      the pool served was up at its own reading.
     */
    method SelectAcross(req: Request, first: Source, second: Source, draw: int -> int)
      returns (r: Result<BackendPool, SelectError>)
      requires (first.Still? ==> first.manager.Valid()) && (second.Still? ==> second.manager.Valid())
      requires first.Moving? || second.Moving? ==> DistinctIds(pools)
      requires FairDraw(draw)
      ensures var list := ListAcross(pools, req, Seen(first, pools), Seen(second, pools));
              && (r.Ok? <==> Supported(catalog, req) && list != [])
              && (r.Ok? ==> exists i :: InSlot(list, draw(Total(list)), i) && r.value == list[i])
      ensures r.Ok? ==> r.value in pools && r.value.weight > 0 && req.protocol in r.value.protocols
      ensures r.Ok? ==> IsUp(Seen(first, pools), r.value.id) || IsUp(Seen(second, pools), r.value.id)
      ensures r.Err? ==> r.error == Diagnosis(catalog, req)
    {
      var supported := CatalogSupports(catalog, req);
      if !supported {
        return Err(CatalogMiss);
      }
      var candidates := Passes(req, first, second);
      ListedWereUp(pools, req, Seen(first, pools), Seen(second, pools));
      if candidates == [] {
        return Err(NoPool);
      }
      var pool := Weighted(candidates, draw);
      assert pool in candidates;
      return Ok(pool);
    }

    method Passes(req: Request, first: Source, second: Source) returns (candidates: seq<BackendPool>)
      requires (first.Still? ==> first.manager.Valid()) && (second.Still? ==> second.manager.Valid())
      requires first.Moving? || second.Moving? ==> DistinctIds(pools)
      ensures candidates == ListAcross(pools, req, Seen(first, pools), Seen(second, pools))
    {
      candidates := Candidates(req, first, true);
      if candidates == [] && req.region != "" {
        candidates := Candidates(req, second, false);
      }
    }

    /** Succeeds exactly on satisfiable requests, with the pool whose slot the draw hits. */
    method Select(req: Request, health: Health.Manager?, now: int, draw: int -> int)
      returns (r: Result<BackendPool, SelectError>)
      requires health != null ==> health.Valid()
      requires FairDraw(draw)
      ensures r.Ok? <==> Satisfiable(catalog, pools, req, ViewOf(health, now))
      ensures r.Ok? ==> Chosen(pools, req, ViewOf(health, now), draw(Bound(pools, req, ViewOf(health, now))), r.value)
      ensures r.Err? ==> r.error == Diagnosis(catalog, req)
    {
      var source := if health == null then NoHealth else Still(health, now);
      CandidatesNonempty(pools, req, ViewOf(health, now));
      r := SelectAcross(req, source, source, draw);
    }

    /** Serves the first satisfiable request of the list; fails only when none is. */
    method SelectFirst(requests: seq<Request>, health: Health.Manager?, now: int, draw: int -> int)
      returns (r: Result<(BackendPool, Request), SelectError>, served: nat)
      requires health != null ==> health.Valid()
      requires FairDraw(draw)
      ensures r.Ok? ==> served < |requests| && r.value.1 == requests[served]
      ensures r.Ok? ==> Satisfiable(catalog, pools, requests[served], ViewOf(health, now))
      ensures r.Ok? ==> Chosen(
        pools, requests[served], ViewOf(health, now), draw(Bound(pools, requests[served], ViewOf(health, now))),
        r.value.0)
      ensures r.Ok? ==> forall j | 0 <= j < served :: !Satisfiable(catalog, pools, requests[j], ViewOf(health, now))
      ensures r.Err? ==> forall req <- requests :: !Satisfiable(catalog, pools, req, ViewOf(health, now))
      ensures r.Err? ==>
                r.error == (if requests == [] then NoRequests else Diagnosis(catalog, requests[|requests| - 1]))
    {
      served := 0;
      if requests == [] {
        return Err(NoRequests), 0;
      }
      var lastErr := NoRequests;
      for i := 0 to |requests|
        invariant i > 0 ==> lastErr == Diagnosis(catalog, requests[i - 1])
        invariant forall j | 0 <= j < i :: !Satisfiable(catalog, pools, requests[j], ViewOf(health, now))
      {
        var one := Select(requests[i], health, now, draw);
        if one.Ok? {
          return Ok((one.value, requests[i])), i;
        }
        lastErr := one.error;
      }
      return Err(lastErr), 0;
    }
  }
}
