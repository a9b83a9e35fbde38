/** What selection amounts to: exact shares, and how they follow capabilities, regions and health. */
module Placement {
  import opened Wrappers
  import opened Config
  import opened Json
  import opened Routing
  import HealthSpec
  import Health

  // ---- Shares ----

  ghost function Interval(lo: int, hi: int): (r: set<int>)
    requires lo <= hi
    ensures forall k :: k in r <==> lo <= k < hi
    ensures |r| == hi - lo
    decreases hi - lo
  {
    if lo == hi then {} else Interval(lo, hi - 1) + {hi - 1}
  }

  /** Every draw below the bound falls in some slot. */
  lemma {:induction false} SlotExists(list: seq<BackendPool>, pick: int)
    requires 0 <= pick < Total(list)
    ensures exists i :: InSlot(list, pick, i)
  {
    var n := |list| - 1;
    if pick >= Total(list[..n]) {
      assert list[..n + 1] == list;
      assert InSlot(list, pick, n);
    } else {
      SlotExists(list[..n], pick);
      var i :| InSlot(list[..n], pick, i);
      assert list[..n][..i] == list[..i] && list[..n][..i + 1] == list[..i + 1];
      assert InSlot(list, pick, i);
    }
  }

  /** The draws in `[0, bound)` that hand the request to `pool`. */
  ghost function WinningDraws(pools: seq<BackendPool>, req: Request, view: View, pool: BackendPool): set<int> {
    set pick | 0 <= pick < Bound(pools, req, view) && Chosen(pools, req, view, pick, pool)
  }

  lemma SlotIsInterval(list: seq<BackendPool>, i: nat)
    requires PositiveWeights(list) && i < |list|
    ensures Total(list[..i + 1]) == Total(list[..i]) + list[i].weight
    ensures 0 <= Total(list[..i]) && Total(list[..i + 1]) <= Total(list)
  {
    assert list[..i + 1][..i] == list[..i];
    TotalMonotone(list, i);
    TotalMonotone(list, i + 1);
  }

  /** On a list of distinct ids a pool is chosen exactly by the draws of its own slot. */
  lemma ChosenIsSlot(pools: seq<BackendPool>, req: Request, view: View, i: nat, pick: int)
    requires var list := CandidateList(pools, req, view); DistinctIds(list) && i < |list|
    ensures var list := CandidateList(pools, req, view);
            Chosen(pools, req, view, pick, list[i]) <==> InSlot(list, pick, i)
  {
    var list := CandidateList(pools, req, view);
    if Chosen(pools, req, view, pick, list[i]) {
      var j :| InSlot(list, pick, j) && list[i] == list[j];
      assert i == j;
    }
  }

  /** Exact weighted placement: `weight` winning draws on the candidate list, none off it. */
  lemma ExactShares(pools: seq<BackendPool>, req: Request, view: View, pool: BackendPool)
    requires DistinctIds(pools)
    ensures |WinningDraws(pools, req, view, pool)| ==
            if pool in CandidateList(pools, req, view) then pool.weight else 0
  {
    var list := CandidateList(pools, req, view);
    CandidatesNonempty(pools, req, view);
    CandidateMembers(pools, req, view);
    var wins := WinningDraws(pools, req, view, pool);
    if pool in list {
      var i :| 0 <= i < |list| && list[i] == pool;
      SlotIsInterval(list, i);
      var slot := Interval(Total(list[..i]), Total(list[..i + 1]));
      forall pick ensures pick in wins <==> pick in slot {
        ChosenIsSlot(pools, req, view, i, pick);
      }
      assert wins == slot;
    } else {
      assert wins == {};
    }
  }

  /** No draw is wasted and none is won twice. */
  lemma EveryDrawHasOneWinner(pools: seq<BackendPool>, req: Request, view: View, pick: int)
    requires 0 <= pick < Bound(pools, req, view)
    ensures exists p <- pools :: Chosen(pools, req, view, pick, p)
    ensures forall p, q | Chosen(pools, req, view, pick, p) && Chosen(pools, req, view, pick, q) :: p == q
  {
    var list := CandidateList(pools, req, view);
    CandidatesNonempty(pools, req, view);
    CandidateMembers(pools, req, view);
    SlotExists(list, pick);
    var i :| InSlot(list, pick, i);
    assert list[i] in list;
    assert Chosen(pools, req, view, pick, list[i]);
    forall p, q | Chosen(pools, req, view, pick, p) && Chosen(pools, req, view, pick, q) ensures p == q {
      var j :| InSlot(list, pick, j) && p == list[j];
      var k :| InSlot(list, pick, k) && q == list[k];
      SlotUnique(list, pick, j, k);
    }
  }

  // ---- Health ----

  /** The pool is on the list as soon as its health allows it. */
  ghost predicate ListedWhenUp(pools: seq<BackendPool>, req: Request, view: View, pool: BackendPool) {
    && pool in pools && pool.weight > 0 && req.protocol in pool.protocols
    && (InRegion(pool, req) || forall q <- pools :: !(Eligible(q, req, view) && InRegion(q, req)))
  }

  /**
    Manager and selector together: judged by the event history, a cooling
    backend wins no draw at all and any other listed backend its full weight.
   */
  lemma PlacementFollowsHealth(
    lib: Library, pools: seq<BackendPool>, log: seq<HealthSpec.Event>, req: Request, pool: BackendPool, now: int)
    requires DistinctIds(pools) && pool in pools
    ensures var view := At(HealthSpec.RunAll(HealthSpec.InitialCells(Health.Policies(lib, pools)), log), now);
            var p := Health.PolicyOf(lib, pool);
            var cooling := p.enabled && HealthSpec.CoolingAt(p, HealthSpec.Project(log, pool.id), now);
            var wins := |WinningDraws(pools, req, view, pool)|;
            && (cooling ==> wins == 0)
            && (!cooling && ListedWhenUp(pools, req, view, pool) ==> wins == pool.weight)
  {
    var policies := Health.Policies(lib, pools);
    var view := At(HealthSpec.RunAll(HealthSpec.InitialCells(policies), log), now);
    var i :| 0 <= i < |pools| && pools[i] == pool;
    Health.PolicyOfPool(lib, pools, i);
    HealthSpec.AvailabilityFromHistory(policies, log, pool.id, now);
    ExactShares(pools, req, view, pool);
    CandidateMembers(pools, req, view);
  }

  /** With no further events the share is zero up to the deadline and whole from the deadline on. */
  lemma ShareReturnsAtDeadline(
    pools: seq<BackendPool>, cells: HealthSpec.Model, req: Request, pool: BackendPool, now: int)
    requires DistinctIds(pools) && pool.id in cells && cells[pool.id].until.Some?
    requires ListedWhenUp(pools, req, At(cells, now), pool)
    ensures |WinningDraws(pools, req, At(cells, now), pool)| ==
            if now < cells[pool.id].until.value then 0 else pool.weight
  {
    ExactShares(pools, req, At(cells, now), pool);
    CandidateMembers(pools, req, At(cells, now));
  }

  /**
    Who may be served, in the pools' own fields: those that are up, have weight and
    speak the protocol; where some such pool is in the wanted region, only those of
    that region. Without a health manager every pool is up.
   */
  lemma CandidatesByField(pools: seq<BackendPool>, req: Request, view: View, pool: BackendPool)
    ensures pool in CandidateList(pools, req, view) <==>
              && pool in pools && IsUp(view, pool.id) && pool.weight > 0 && req.protocol in pool.protocols
              && (req.region == "" || pool.region == req.region
                  || forall q <- pools | q.region == req.region ::
                       !(IsUp(view, q.id) && q.weight > 0 && req.protocol in q.protocols))
    ensures IsUp(Unmonitored, pool.id)
  {
    CandidateMembers(pools, req, view);
  }

  // ---- Capabilities ----

  lemma {:induction false} SomesIndex<T>(xs: seq<Option<T>>, k: nat)
    requires k < |Somes(xs)|
    ensures exists i: nat :: i < |xs| && xs[i] == Some(Somes(xs)[k]) && Somes(xs[..i]) == Somes(xs)[..k]
  {
    var n := |xs| - 1;
    if k < |Somes(xs[..n])| {
      SomesIndex(xs[..n], k);
      var i: nat :| i < n && xs[..n][i] == Some(Somes(xs[..n])[k]) && Somes(xs[..n][..i]) == Somes(xs[..n])[..k];
      assert xs[..n][..i] == xs[..i];
      assert Somes(xs)[..k] == Somes(xs[..n])[..k];
      assert xs[i] == Some(Somes(xs)[k]);
    } else {
      assert xs[n] == Some(Somes(xs)[k]) && Somes(xs)[..k] == Somes(xs[..n]);
    }
  }

  lemma {:induction false} SomesContains<T>(xs: seq<Option<T>>, j: nat)
    requires j < |xs| && xs[j].Some?
    ensures xs[j].value in Somes(xs)
  {
    var n := |xs| - 1;
    if j < n {
      SomesContains(xs[..n], j);
    }
  }

  /** Entry `i` of the payload asks for a request that this configuration can serve now. */
  ghost predicate EntrySatisfiable(payload: Caps, i: int, catalog: seq<Browser>, pools: seq<BackendPool>, view: View) {
    0 <= i < |Entries(payload)| && RequestAt(payload, i).Some?
    && Satisfiable(catalog, pools, RequestAt(payload, i).value, view)
  }

  /** The first satisfiable request comes from the first satisfiable entry of the client's own list. */
  lemma LeastSatisfiableEntry(payload: Caps, k: nat, catalog: seq<Browser>, pools: seq<BackendPool>, view: View)
    requires var requests := Somes(Requests(payload));
             && k < |requests| && Satisfiable(catalog, pools, requests[k], view)
             && forall j | 0 <= j < k :: !Satisfiable(catalog, pools, requests[j], view)
    ensures exists i :: && EntrySatisfiable(payload, i, catalog, pools, view)
                        && RequestAt(payload, i).value == Somes(Requests(payload))[k]
                        && forall j | 0 <= j < i :: !EntrySatisfiable(payload, j, catalog, pools, view)
  {
    var all := Requests(payload);
    SomesIndex(all, k);
    var i: nat :| i < |all| && all[i] == Some(Somes(all)[k]) && Somes(all[..i]) == Somes(all)[..k];
    assert RequestAt(payload, i) == all[i];
    forall j | 0 <= j < i ensures !EntrySatisfiable(payload, j, catalog, pools, view) {
      if RequestAt(payload, j).Some? {
        assert all[..i][j] == RequestAt(payload, j);
        SomesContains(all[..i], j);
        var m :| 0 <= m < k && Somes(all)[..k][m] == RequestAt(payload, j).value;
        assert Somes(all)[m] == RequestAt(payload, j).value;
      }
    }
    assert EntrySatisfiable(payload, i, catalog, pools, view);
  }

  lemma NoSatisfiableEntry(payload: Caps, catalog: seq<Browser>, pools: seq<BackendPool>, view: View)
    requires forall req <- Somes(Requests(payload)) :: !Satisfiable(catalog, pools, req, view)
    ensures forall i :: !EntrySatisfiable(payload, i, catalog, pools, view)
  {
    forall i ensures !EntrySatisfiable(payload, i, catalog, pools, view) {
      if EntrySatisfiable(payload, i, catalog, pools, view) {
        assert Requests(payload)[i] == RequestAt(payload, i);
        SomesContains(Requests(payload), i);
      }
    }
  }

  /**
    The value a client asks for under `key`: its own entry's, if the entry names the
    key at all, else the shared one; only a JSON string counts.
   */
  function Asked(own: Caps, shared: Caps, key: string): string {
    if key in own then
      match own[key]
      case String(text) => text
      case _ => ""
    else if key in shared then
      match shared[key]
      case String(text) => text
      case _ => ""
    else ""
  }

  /** The first of `keys` that is asked for with a nonempty string. */
  function FirstAsked(own: Caps, shared: Caps, keys: seq<string>): string {
    if keys == [] then ""
    else if Asked(own, shared, keys[0]) != "" then Asked(own, shared, keys[0])
    else FirstAsked(own, shared, keys[1..])
  }

  /** The request says, field by field, what the client asked for. */
  ghost predicate Says(req: Request, own: Caps, shared: Caps) {
    var browser := Asked(own, shared, "browserName");
    var device := FirstAsked(own, shared, ["deviceName", "appium:deviceName"]);
    && req.protocol == WEBDRIVER && req.deviceName == device
    && req.browserName == (if browser != "" then browser else device)
    && req.version == FirstAsked(own, shared, ["browserVersion", "version"])
    && req.platform == FirstAsked(own, shared, ["platformName", "platform"])
    && req.region == FirstAsked(own, shared, ["gridlane:region", "selenoid:region", "region"])
  }

  /** What every `firstMatch` entry shares: nothing, when `alwaysMatch` is missing or no object. */
  function Shared(capabilities: Caps): Caps {
    if "alwaysMatch" in capabilities && capabilities["alwaysMatch"].Object? then capabilities["alwaysMatch"].fields
    else map[]
  }

  lemma {:induction false} FirstOfMerged(own: Caps, shared: Caps, keys: seq<string>)
    ensures FirstStringValue(shared + own, keys) == FirstAsked(own, shared, keys)
  {
    if keys != [] {
      FirstOfMerged(own, shared, keys[1..]);
    }
  }

  lemma MergedSays(own: Caps, shared: Caps)
    ensures Says(RequestFromCapabilities(shared + own), own, shared)
  {
    FirstOfMerged(own, shared, ["deviceName", "appium:deviceName"]);
    FirstOfMerged(own, shared, ["browserVersion", "version"]);
    FirstOfMerged(own, shared, ["platformName", "platform"]);
    FirstOfMerged(own, shared, ["gridlane:region", "selenoid:region", "region"]);
  }

  /**
    An entry of a nonempty `firstMatch` becomes a request exactly when it is an
    object and it or `alwaysMatch` names a browser or a device; its own value
    wins wherever it names a key, even one that is no string.
   */
  lemma EntriesOverrideAlways(payload: Caps, capabilities: Caps, first: seq<Json>, i: nat)
    requires "capabilities" in payload && payload["capabilities"] == Object(capabilities)
    requires "firstMatch" in capabilities && capabilities["firstMatch"] == Array(first) && i < |first|
    ensures |Entries(payload)| == |first|
    ensures var shared := Shared(capabilities);
            if first[i].Object? then
              var own := first[i].fields;
              if Asked(own, shared, "browserName") == ""
              && FirstAsked(own, shared, ["deviceName", "appium:deviceName"]) == ""
              then RequestAt(payload, i) == None
              else RequestAt(payload, i).Some? && Says(RequestAt(payload, i).value, own, shared)
            else RequestAt(payload, i) == None
  {
    assert Entries(payload)[i] == MergedEntry(Shared(capabilities), first[i]);
    if first[i].Object? {
      MergedSays(first[i].fields, Shared(capabilities));
    }
  }

  /**
    Without a nonempty `firstMatch` the client's only entry is `alwaysMatch`, or
    the capabilities themselves if that is empty.
   */
  lemma LoneEntry(payload: Caps, capabilities: Caps)
    requires "capabilities" in payload && payload["capabilities"] == Object(capabilities)
    requires "firstMatch" in capabilities && capabilities["firstMatch"].Array? ==>
              capabilities["firstMatch"].items == []
    ensures |Entries(payload)| == 1
    ensures var own := if Shared(capabilities) == map[] then capabilities else Shared(capabilities);
            RequestAt(payload, 0).Some? ==> Says(RequestAt(payload, 0).value, own, map[])
    ensures var own := if Shared(capabilities) == map[] then capabilities else Shared(capabilities);
            RequestAt(payload, 0).None? <==>
            Asked(own, map[], "browserName") == "" && FirstAsked(own, map[], ["deviceName", "appium:deviceName"]) == ""
  {
    var own := if Shared(capabilities) == map[] then capabilities else Shared(capabilities);
    assert map[] + own == own;
    MergedSays(own, map[]);
    assert Entries(payload)[0] == Some(own);
  }

  /** Under `key` the client asks for the nonempty text `t`. */
  predicate Gives(own: Caps, shared: Caps, key: string, t: string) {
    t != "" && if key in own then own[key] == String(t) else key in shared && shared[key] == String(t)
  }

  /** Under `key` the client asks for nothing: it is missing, an empty string, or no string. */
  predicate Silent(own: Caps, shared: Caps, key: string) {
    if key in own then !own[key].String? || own[key] == String("")
    else key in shared ==> !shared[key].String? || shared[key] == String("")
  }

  lemma {:induction false} FirstGiven(own: Caps, shared: Caps, keys: seq<string>, k: nat, t: string)
    requires k <= |keys| && forall j | 0 <= j < k :: Silent(own, shared, keys[j])
    ensures k < |keys| && Gives(own, shared, keys[k], t) ==> FirstAsked(own, shared, keys) == t
    ensures k == |keys| ==> FirstAsked(own, shared, keys) == ""
  {
    if k > 0 {
      assert Silent(own, shared, keys[0]);
      FirstGiven(own, shared, keys[1..], k - 1, t);
    }
  }

  /** Browser and device of an entry, key by key in their order. */
  lemma BrowserOfEntry(payload: Caps, capabilities: Caps, first: seq<Json>, i: nat, own: Caps, t: string)
    requires "capabilities" in payload && payload["capabilities"] == Object(capabilities)
    requires "firstMatch" in capabilities && capabilities["firstMatch"] == Array(first) && i < |first|
    requires first[i] == Object(own)
    ensures var shared := Shared(capabilities);
            var req := RequestAt(payload, i);
            && (Gives(own, shared, "browserName", t) ==> req.Some? && req.value.browserName == t)
            && (Silent(own, shared, "browserName") && Gives(own, shared, "deviceName", t) ==>
                  req.Some? && req.value.browserName == t && req.value.deviceName == t)
            && ((Silent(own, shared, "browserName") && Silent(own, shared, "deviceName")
                 && Gives(own, shared, "appium:deviceName", t)) ==>
                  req.Some? && req.value.browserName == t && req.value.deviceName == t)
            && ((Silent(own, shared, "browserName") && Silent(own, shared, "deviceName")
                 && Silent(own, shared, "appium:deviceName")) ==> req.None?)
            && (req.Some? ==> req.value.protocol == "webdriver")
  {
    var shared := Shared(capabilities);
    EntriesOverrideAlways(payload, capabilities, first, i);
    var keys := ["deviceName", "appium:deviceName"];
    FirstGiven(own, shared, keys, 0, t);
    if Silent(own, shared, "deviceName") {
      FirstGiven(own, shared, keys, 1, t);
      if Silent(own, shared, "appium:deviceName") {
        FirstGiven(own, shared, keys, 2, t);
      }
    }
  }

  /** Version, platform and region of a request, key by key in their order. */
  lemma FieldsOfRequest(own: Caps, shared: Caps, req: Request, t: string)
    requires Says(req, own, shared)
    ensures Gives(own, shared, "browserVersion", t) ==> req.version == t
    ensures Silent(own, shared, "browserVersion") && Gives(own, shared, "version", t) ==> req.version == t
    ensures Silent(own, shared, "browserVersion") && Silent(own, shared, "version") ==> req.version == ""
    ensures Gives(own, shared, "platformName", t) ==> req.platform == t
    ensures Silent(own, shared, "platformName") && Gives(own, shared, "platform", t) ==> req.platform == t
    ensures Silent(own, shared, "platformName") && Silent(own, shared, "platform") ==> req.platform == ""
    ensures Gives(own, shared, "gridlane:region", t) ==> req.region == t
    ensures Silent(own, shared, "gridlane:region") && Gives(own, shared, "selenoid:region", t) ==> req.region == t
    ensures Silent(own, shared, "gridlane:region") && Silent(own, shared, "selenoid:region") ==>
              (Gives(own, shared, "region", t) ==> req.region == t)
              && (Silent(own, shared, "region") ==> req.region == "")
  {
    TwoKeys(own, shared, "browserVersion", "version", t);
    TwoKeys(own, shared, "platformName", "platform", t);
    var keys := ["gridlane:region", "selenoid:region", "region"];
    FirstGiven(own, shared, keys, 0, t);
    if Silent(own, shared, keys[0]) {
      FirstGiven(own, shared, keys, 1, t);
      if Silent(own, shared, keys[1]) {
        FirstGiven(own, shared, keys, 2, t);
        if Silent(own, shared, keys[2]) {
          FirstGiven(own, shared, keys, 3, t);
        }
      }
    }
  }

  lemma TwoKeys(own: Caps, shared: Caps, a: string, b: string, t: string)
    ensures Gives(own, shared, a, t) ==> FirstAsked(own, shared, [a, b]) == t
    ensures Silent(own, shared, a) && Gives(own, shared, b, t) ==> FirstAsked(own, shared, [a, b]) == t
    ensures Silent(own, shared, a) && Silent(own, shared, b) ==> FirstAsked(own, shared, [a, b]) == ""
  {
    FirstGiven(own, shared, [a, b], 0, t);
    if Silent(own, shared, a) {
      FirstGiven(own, shared, [a, b], 1, t);
      if Silent(own, shared, b) {
        FirstGiven(own, shared, [a, b], 2, t);
      }
    }
  }

  /**
    Without a `capabilities` object the legacy `desiredCapabilities` are the only
    entry, and without those there is none.
   */
  lemma LegacyEntry(payload: Caps, desired: Caps)
    requires !("capabilities" in payload && payload["capabilities"].Object?)
    ensures "desiredCapabilities" in payload && payload["desiredCapabilities"] == Object(desired) ==>
              && |Entries(payload)| == 1
              && (RequestAt(payload, 0).Some? ==> Says(RequestAt(payload, 0).value, desired, map[]))
              && (RequestAt(payload, 0).None? <==>
                    Asked(desired, map[], "browserName") == ""
                    && FirstAsked(desired, map[], ["deviceName", "appium:deviceName"]) == "")
    ensures !("desiredCapabilities" in payload && payload["desiredCapabilities"].Object?) ==> Entries(payload) == []
  {
    assert map[] + desired == desired;
    MergedSays(desired, map[]);
  }
}
