/** The metrics accumulator: counters and histograms updated in place, and sorted, cloned exports. */
module Metrics {
  import opened MetricsSpec

  const LATENCY_BUCKETS: seq<real> := [0.005, 0.01, 0.025, 0.05, 0.1, 0.25, 0.5, 1.0, 2.5, 5.0, 10.0, 30.0]

  ghost predicate Nondecreasing(bounds: seq<real>) {
    forall i, j | 0 <= i <= j < |bounds| :: bounds[i] <= bounds[j]
  }

  class Histogram {
    const bounds: seq<real>
    const buckets: array<nat>
    var count: nat
    /** Every value observed so far. */
    ghost var observed: seq<real>

    ghost predicate Valid()
      reads this, buckets
    {
      && buckets.Length == |bounds|
      && count == |observed|
      && forall i | 0 <= i < |bounds| :: buckets[i] == CountAtMost(observed, bounds[i])
    }

    constructor (bounds: seq<real>)
      ensures Valid() && fresh(buckets) && this.bounds == bounds && observed == []
    {
      this.bounds := bounds;
      buckets := new nat[|bounds|](_ => 0);
      count := 0;
      observed := [];
    }

    /** Bucket `i` always equals the number of observed values at most bound `i`. */
    method Observe(value: real)
      requires Valid()
      modifies this, buckets
      ensures Valid() && observed == old(observed) + [value]
    {
      count := count + 1;
      observed := observed + [value];
      assert observed[..|observed| - 1] == old(observed);
      for i := 0 to |bounds|
        invariant count == |observed| && observed == old(observed) + [value]
        invariant forall j | 0 <= j < i :: buckets[j] == CountAtMost(observed, bounds[j])
        invariant forall j | i <= j < |bounds| :: buckets[j] == CountAtMost(old(observed), bounds[j])
      {
        if value <= bounds[i] {
          buckets[i] := buckets[i] + 1;
        }
      }
    }

    /** What a scrape reads off a histogram: buckets nondecreasing and never above the count. */
    lemma BucketsAreCumulative(i: nat, j: nat)
      requires Valid() && Nondecreasing(bounds) && i <= j < buckets.Length
      ensures buckets[i] <= buckets[j] <= count
    {
      BucketsNested(observed, bounds[i], bounds[j]);
    }

    /** A copy that shares nothing with the original. */
    method Clone() returns (copy: Histogram)
      requires Valid()
      ensures fresh(copy) && fresh(copy.buckets) && copy.Valid()
      ensures copy.bounds == bounds && copy.observed == observed
      ensures copy.count == count && copy.buckets[..] == buckets[..]
    {
      copy := new Histogram(bounds);
      copy.count := count;
      copy.observed := observed;
      for i := 0 to buckets.Length
        invariant copy.count == count && copy.observed == observed && fresh(copy.buckets)
        invariant forall j | 0 <= j < i :: copy.buckets[j] == buckets[j]
        modifies copy.buckets
      {
        copy.buckets[i] := buckets[i];
      }
    }
  }

  /** The histogram holds exactly these samples. */
  ghost predicate Tells(h: Histogram, bounds: seq<real>, samples: seq<real>)
    reads h, h.buckets
  {
    h.Valid() && h.bounds == bounds && h.observed == samples
  }

  ghost predicate Apart(a: Histogram, b: Histogram) {
    a != b && a.buckets != b.buckets
  }

  /** The map from groups to histograms, each made on first use. */
  class DurationTable<G(==, !new)> {
    const bounds: seq<real>
    var histograms: map<G, Histogram>
    ghost var samples: map<G, seq<real>>
    ghost var Repr: set<object>

    /** Every histogram holds its group's samples, and no two groups share a histogram or its buckets. */
    ghost predicate Valid()
      reads this, Repr
    {
      && this in Repr && histograms.Keys == samples.Keys
      && (forall g <- histograms :: histograms[g] in Repr && histograms[g].buckets in Repr)
      && (forall g <- histograms :: Tells(histograms[g], bounds, samples[g]))
      && (forall g <- histograms, h <- histograms | g != h :: Apart(histograms[g], histograms[h]))
    }

    constructor (bounds: seq<real>)
      ensures Valid() && fresh(Repr) && this.bounds == bounds && samples == map[]
    {
      this.bounds := bounds;
      histograms, samples, Repr := map[], map[], {this};
    }

    method HistogramFor(group: G)
      requires Valid()
      modifies this
      ensures Valid() && fresh(Repr - old(Repr))
      ensures group in histograms
      ensures samples == old(samples)[group := SamplesOf(old(samples), group)]
    {
      if group !in histograms {
        Add(group);
      }
    }

    method Add(group: G)
      requires Valid() && group !in histograms
      modifies this
      ensures Valid() && fresh(Repr - old(Repr))
      ensures group in histograms && samples == old(samples)[group := []]
    {
      var h := new Histogram(bounds);
      assert forall g <- histograms :: Apart(histograms[g], h);
      histograms := histograms[group := h];
      samples := samples[group := []];
      Repr := Repr + {h, h.buckets};
    }

    method ObserveIn(group: G, value: real)
      requires Valid() && group in histograms
      modifies this`samples, histograms[group], histograms[group].buckets
      ensures Valid()
      ensures samples == old(samples)[group := old(samples)[group] + [value]]
    {
      var h := histograms[group];
      h.Observe(value);
      samples := samples[group := samples[group] + [value]];
    }

    /** `histogramFor(group).observe(value)`. */
    method Observe(group: G, value: real)
      requires Valid()
      modifies Repr
      ensures Valid() && fresh(Repr - old(Repr))
      ensures samples == old(samples)[group := SamplesOf(old(samples), group) + [value]]
    {
      HistogramFor(group);
      ObserveIn(group, value);
    }
  }

  /** One family of series: a counter per (group, tag) and a histogram per group. */
  class Family<G(==, !new), L(==, !new)> {
    var requests: Counters<G, L>
    const durations: DurationTable<G>
    /** Everything recorded so far. */
    ghost var log: seq<Observation<G, L>>

    /** Both maps follow the one log. */
    ghost predicate Valid()
      reads this, durations, durations.Repr
    {
      this !in durations.Repr && durations.Valid() && Follow(requests, durations.samples, log)
    }

    constructor (bounds: seq<real>)
      ensures Valid() && fresh(durations) && fresh(durations.Repr) && durations.bounds == bounds && log == []
    {
      requests := map[];
      durations := new DurationTable(bounds);
      log := [];
    }

    /** Counts the observation once in each map, whatever the group has seen before. */
    method Record(o: Observation<G, L>)
      requires Valid()
      modifies this, durations.Repr
      ensures Valid() && fresh(durations.Repr - old(durations.Repr))
      ensures log == old(log) + [o]
    {
      FollowOne(requests, durations.samples, log, o);
      var k := (o.group, o.tag);
      requests := requests[k := Get(requests, k) + 1];
      durations.Observe(o.group, o.seconds);
      log := log + [o];
    }

    /** Conservation on the live maps: a group's counters add up to its histogram's count. */
    lemma CountersMatchHistogram(g: G)
      requires Valid()
      ensures SumGroup(requests, g) == if g in durations.histograms then durations.histograms[g].count else 0
    {
      Conservation(log, g);
      assert Seconds(log, g) == SamplesOf(durations.samples, g);
      if g in durations.histograms {
        assert Tells(durations.histograms[g], durations.bounds, durations.samples[g]);
      }
    }
  }

  /** The sorted listing of a map: every key once, in increasing order, with its value. */
  ghost predicate Lists<K(!new), V>(items: seq<(K, V)>, values: map<K, V>, less: (K, K) -> bool) {
    && (forall i | 0 <= i < |items| :: items[i].0 in values && values[items[i].0] == items[i].1)
    && (forall k <- values :: exists i :: 0 <= i < |items| && items[i].0 == k)
    && (forall i, j | 0 <= i < j < |items| :: less(items[i].0, items[j].0))
  }

  function InsertKey<K>(sorted: seq<K>, key: K, less: (K, K) -> bool): seq<K> {
    if sorted == [] || less(key, sorted[0]) then [key] + sorted
    else [sorted[0]] + InsertKey(sorted[1..], key, less)
  }

  lemma {:induction false} InsertKeySorts<K(!new)>(sorted: seq<K>, key: K, less: (K, K) -> bool)
    requires StrictTotalOrder(less) && StrictlySorted(sorted, less) && key !in sorted
    ensures forall k :: k in InsertKey(sorted, key, less) <==> k in sorted || k == key
    ensures StrictlySorted(InsertKey(sorted, key, less), less)
  {
    if sorted != [] && !less(key, sorted[0]) {
      assert sorted[0] in sorted && sorted == [sorted[0]] + sorted[1..];
      InsertKeySorts(sorted[1..], key, less);
      var r := InsertKey(sorted[1..], key, less);
      forall i | 0 <= i < |r| ensures less(sorted[0], r[i]) {
        assert r[i] in r;
      }
    }
  }

  /** Collects the entries in whatever order the map yields them and sorts them by the comparator. */
  method SortedEntries<K(==, !new), V>(values: map<K, V>, less: (K, K) -> bool) returns (items: seq<(K, V)>)
    requires StrictTotalOrder(less)
    ensures Lists(items, values, less)
  {
    var keys: seq<K> := [];
    var todo := values.Keys;
    while todo != {}
      invariant todo <= values.Keys && StrictlySorted(keys, less)
      invariant forall k :: k in keys <==> k in values && k !in todo
      decreases todo
    {
      var k :| k in todo;
      InsertKeySorts(keys, k, less);
      keys := InsertKey(keys, k, less);
      todo := todo - {k};
    }
    assert forall i | 0 <= i < |keys| :: keys[i] in keys;
    items := seq(|keys|, i requires 0 <= i < |keys| => (keys[i], values[keys[i]]));
    forall k <- values ensures exists i :: 0 <= i < |items| && items[i].0 == k {
      var i :| 0 <= i < |keys| && keys[i] == k;
      assert items[i].0 == k;
    }
  }

  /** The export does not depend on the map's iteration order: there is one sorted listing. */
  lemma ListingUnique<K(!new), V>(a: seq<(K, V)>, b: seq<(K, V)>, values: map<K, V>, less: (K, K) -> bool)
    requires StrictTotalOrder(less) && Lists(a, values, less) && Lists(b, values, less)
    ensures a == b
  {
    var ka := seq(|a|, i requires 0 <= i < |a| => a[i].0);
    var kb := seq(|b|, i requires 0 <= i < |b| => b[i].0);
    forall k ensures k in ka <==> k in kb {
      if k in values {
        var i :| 0 <= i < |a| && a[i].0 == k;
        var j :| 0 <= j < |b| && b[j].0 == k;
        assert ka[i] == k && kb[j] == k;
      }
    }
    SortedListingUnique(ka, kb, less);
    assert |a| == |b|;
    forall i | 0 <= i < |a| ensures a[i] == b[i] {
      assert ka[i] == kb[i];
    }
  }

  /** Replaces every histogram of a listing by a copy. */
  method CloneAll<G(==, !new)>(items: seq<(G, Histogram)>) returns (copies: seq<(G, Histogram)>)
    requires forall i | 0 <= i < |items| :: items[i].1.Valid()
    ensures |copies| == |items|
    ensures forall i | 0 <= i < |items| ::
      && copies[i].0 == items[i].0 && copies[i].1.Valid() && fresh(copies[i].1) && fresh(copies[i].1.buckets)
      && copies[i].1.bounds == items[i].1.bounds && copies[i].1.observed == items[i].1.observed
  {
    copies := [];
    for i := 0 to |items|
      invariant |copies| == i
      invariant forall j | 0 <= j < |items| :: items[j].1.Valid() && items[j].1.observed == old(items[j].1.observed)
      invariant forall j | 0 <= j < i ::
        && copies[j].0 == items[j].0 && copies[j].1.Valid() && fresh(copies[j].1) && fresh(copies[j].1.buckets)
        && copies[j].1.bounds == items[j].1.bounds && copies[j].1.observed == items[j].1.observed
    {
      var copy := items[i].1.Clone();
      copies := copies + [(items[i].0, copy)];
    }
  }

  /** The copies of a family's histograms: one for each group seen and no other, in order. */
  ghost predicate HistogramsOf<G(!new), L(!new)>(
    items: seq<(G, Histogram)>, bounds: seq<real>, log: seq<Observation<G, L>>, groupLess: (G, G) -> bool)
    reads Copies(items)
  {
    && (forall i | 0 <= i < |items| :: Tells(items[i].1, bounds, Seconds(log, items[i].0)))
    && (forall i, j | 0 <= i < j < |items| :: groupLess(items[i].0, items[j].0))
    && (forall g :: Seconds(log, g) != [] <==> Listed(items, g))
  }

  ghost function Copies<G>(items: seq<(G, Histogram)>): set<object> {
    (set p <- items :: p.1 as object) + (set p <- items :: p.1.buckets as object)
  }

  ghost predicate Listed<G>(items: seq<(G, Histogram)>, g: G) {
    exists i :: 0 <= i < |items| && items[i].0 == g
  }

  /** Sorted copies of every histogram of the table. */
  method ExportDurations<G(==, !new)>(t: DurationTable<G>, groupLess: (G, G) -> bool)
    returns (copies: seq<(G, Histogram)>)
    requires t.Valid() && StrictTotalOrder(groupLess)
    ensures forall i | 0 <= i < |copies| :: Tells(copies[i].1, t.bounds, SamplesOf(t.samples, copies[i].0))
    ensures forall i, j | 0 <= i < j < |copies| :: groupLess(copies[i].0, copies[j].0)
    ensures forall g :: g in t.samples <==> Listed(copies, g)
    ensures fresh(Copies(copies))
  {
    var live := SortedEntries(t.histograms, groupLess);
    copies := CloneListing(t, live, groupLess);
  }

  method CloneListing<G(==, !new)>(t: DurationTable<G>, live: seq<(G, Histogram)>, groupLess: (G, G) -> bool)
    returns (copies: seq<(G, Histogram)>)
    requires t.Valid() && Lists(live, t.histograms, groupLess)
    ensures forall i | 0 <= i < |copies| :: Tells(copies[i].1, t.bounds, SamplesOf(t.samples, copies[i].0))
    ensures forall i, j | 0 <= i < j < |copies| :: groupLess(copies[i].0, copies[j].0)
    ensures forall g :: g in t.samples <==> Listed(copies, g)
    ensures fresh(Copies(copies))
  {
    copies := CloneAll(live);
    forall g ensures g in t.samples <==> Listed(copies, g) {
      if g in t.histograms {
        var i :| 0 <= i < |live| && live[i].0 == g;
        assert copies[i].0 == g;
      }
    }
  }

  /** What one scrape takes from a family while it holds the lock. */
  method Export<G(==, !new), L(==, !new)>(
    f: Family<G, L>, seriesLess: ((G, L), (G, L)) -> bool, groupLess: (G, G) -> bool)
    returns (counters: seq<((G, L), nat)>, histograms: seq<(G, Histogram)>)
    requires f.Valid() && StrictTotalOrder(seriesLess) && StrictTotalOrder(groupLess)
    ensures Lists(counters, Counts(f.log), seriesLess)
    ensures HistogramsOf(histograms, f.durations.bounds, f.log, groupLess) && fresh(Copies(histograms))
  {
    counters := SortedEntries(f.requests, seriesLess);
    histograms := ExportDurations(f.durations, groupLess);
  }

  /** The export of one of the accumulator's families. */
  method ExportFamily(f: Family<Pair, string>)
    returns (counters: seq<((Pair, string), nat)>, histograms: seq<(Pair, Histogram)>)
    requires f.Valid() && f.durations.bounds == LATENCY_BUCKETS
    ensures Lists(counters, Counts(f.log), SeriesLess) && ScrapeOf(histograms, f.log) && fresh(Copies(histograms))
  {
    OrdersAreTotal();
    LatencyBucketsGrow();
    counters, histograms := Export(f, SeriesLess, GroupLess);
    forall i | 0 <= i < |histograms| ensures CopyOf(histograms[i].1, f.log, histograms[i].0) {
      var h := histograms[i].1;
      assert Tells(h, f.durations.bounds, Seconds(f.log, histograms[i].0));
      Conservation(f.log, histograms[i].0);
      CopyIsCumulative(h);
    }
  }

  method ExportTwo(f: Family<Pair, string>, g: Family<Pair, string>)
    returns (
      fCounters: seq<((Pair, string), nat)>, fHistograms: seq<(Pair, Histogram)>,
      gCounters: seq<((Pair, string), nat)>, gHistograms: seq<(Pair, Histogram)>)
    requires f.Valid() && g.Valid() && f.durations.bounds == g.durations.bounds == LATENCY_BUCKETS
    ensures Lists(fCounters, Counts(f.log), SeriesLess) && Lists(gCounters, Counts(g.log), SeriesLess)
    ensures ScrapeOf(fHistograms, f.log) && ScrapeOf(gHistograms, g.log)
    ensures fresh(Copies(fHistograms)) && fresh(Copies(gHistograms))
  {
    fCounters, fHistograms := ExportFamily(f);
    gCounters, gHistograms := ExportFamily(g);
  }

  method ExportSockets(webSockets: map<Pair, nat>) returns (counters: seq<(Pair, nat)>)
    ensures Lists(counters, webSockets, PlainLess)
  {
    OrdersAreTotal();
    counters := SortedEntries(webSockets, PlainLess);
  }

  lemma CopyIsCumulative(h: Histogram)
    requires h.Valid() && Nondecreasing(h.bounds)
    ensures Cumulative(h)
  {
    forall i, j | 0 <= i <= j < h.buckets.Length ensures h.buckets[i] <= h.buckets[j] <= h.count {
      h.BucketsAreCumulative(i, j);
    }
  }

  /**
    Isolation: whatever is recorded after a scrape, its copies still tell the
    state at the scrape, and in them counters and histograms still agree.
   */
  method ScrapeThenRecord<G(==, !new), L(==, !new)>(
    f: Family<G, L>, seriesLess: ((G, L), (G, L)) -> bool, groupLess: (G, G) -> bool, later: seq<Observation<G, L>>)
    returns (counters: seq<((G, L), nat)>, histograms: seq<(G, Histogram)>)
    requires f.Valid() && StrictTotalOrder(seriesLess) && StrictTotalOrder(groupLess)
    modifies f, f.durations.Repr
    ensures f.Valid() && f.log == old(f.log) + later
    ensures Lists(counters, Counts(old(f.log)), seriesLess)
    ensures HistogramsOf(histograms, f.durations.bounds, old(f.log), groupLess)
    ensures Agree(histograms, old(f.log))
  {
    counters, histograms := Export(f, seriesLess, groupLess);
    CopiesAgree(histograms, f.durations.bounds, f.log, groupLess);
    RecordAll(f, later);
  }

  /** Each histogram counts what its group's counters add up to. */
  ghost predicate Agree<G(!new), L(!new)>(items: seq<(G, Histogram)>, log: seq<Observation<G, L>>)
    reads Copies(items)
  {
    forall i | 0 <= i < |items| :: items[i].1.count == SumGroup(Counts(log), items[i].0)
  }

  lemma CopiesAgree<G(!new), L(!new)>(
    items: seq<(G, Histogram)>, bounds: seq<real>, log: seq<Observation<G, L>>, groupLess: (G, G) -> bool)
    requires HistogramsOf(items, bounds, log, groupLess)
    ensures Agree(items, log)
  {
    forall i | 0 <= i < |items| ensures items[i].1.count == SumGroup(Counts(log), items[i].0) {
      assert Tells(items[i].1, bounds, Seconds(log, items[i].0));
      Conservation(log, items[i].0);
    }
  }

  /** Recording, however much of it, touches nothing outside the family. */
  method RecordAll<G(==, !new), L(==, !new)>(f: Family<G, L>, later: seq<Observation<G, L>>)
    requires f.Valid()
    modifies f, f.durations.Repr
    ensures f.Valid() && fresh(f.durations.Repr - old(f.durations.Repr)) && f.log == old(f.log) + later
  {
    if later == [] {
      return;
    }
    var n := |later| - 1;
    RecordAll(f, later[..n]);
    f.Record(later[n]);
    assert later == later[..n] + [later[n]];
  }

  lemma LatencyBucketsGrow()
    ensures Nondecreasing(LATENCY_BUCKETS)
    ensures |LATENCY_BUCKETS| == 12 && LATENCY_BUCKETS[0] == 0.005 && LATENCY_BUCKETS[11] == 30.0
  {}

  type Pair = (string, string)

  /** Buckets nondecreasing, and none above the count. */
  ghost predicate Cumulative(h: Histogram)
    reads h, h.buckets
  {
    forall i, j | 0 <= i <= j < h.buckets.Length :: h.buckets[i] <= h.buckets[j] <= h.count
  }

  /** A scraped copy: the group's samples over the latency buckets, as many as its counters add up to. */
  ghost predicate CopyOf(h: Histogram, log: seq<Observation<Pair, string>>, group: Pair)
    reads h, h.buckets
  {
    && Tells(h, LATENCY_BUCKETS, Seconds(log, group))
    && h.count == SumGroup(Counts(log), group) && Cumulative(h)
  }

  /** One such copy for each group that the log has seen and for no other, in order. */
  ghost predicate ScrapeOf(items: seq<(Pair, Histogram)>, log: seq<Observation<Pair, string>>)
    reads Copies(items)
  {
    && HistogramsOf(items, LATENCY_BUCKETS, log, GroupLess)
    && forall i | 0 <= i < |items| :: CopyOf(items[i].1, log, items[i].0)
  }

  datatype Exposition = Exposition(
    httpCounters: seq<((Pair, string), nat)>, httpHistograms: seq<(Pair, Histogram)>,
    proxyCounters: seq<((Pair, string), nat)>, proxyHistograms: seq<(Pair, Histogram)>,
    webSocketCounters: seq<(Pair, nat)>)

  ghost function CopiesIn(x: Exposition): set<object> {
    Copies(x.httpHistograms) + Copies(x.proxyHistograms)
  }

  /** The listings tell these logs and counters, completely and in order; in them counters and histograms agree. */
  ghost predicate Exposes(
    x: Exposition, httpLog: seq<Observation<Pair, string>>, proxyLog: seq<Observation<Pair, string>>,
    sockets: map<Pair, nat>)
    reads CopiesIn(x)
  {
    && Lists(x.httpCounters, Counts(httpLog), SeriesLess) && ScrapeOf(x.httpHistograms, httpLog)
    && Lists(x.proxyCounters, Counts(proxyLog), SeriesLess) && ScrapeOf(x.proxyHistograms, proxyLog)
    && Lists(x.webSocketCounters, sockets, PlainLess)
  }

  /** One more at `k`, the same everywhere else. */
  ghost predicate OneMore(before: map<Pair, nat>, after: map<Pair, nat>, k: Pair) {
    && after.Keys == before.Keys + {k}
    && after[k] == 1 + (if k in before then before[k] else 0)
    && forall j <- before | j != k :: after[j] == before[j]
  }

  /** The accumulator shared by every configuration generation. */
  class Accumulator {
    /** Grouped by (method, route), tagged by status. */
    const http: Family<Pair, string>
    /** Grouped by (protocol, backend id), tagged by outcome. */
    const proxy: Family<Pair, string>
    /** Per (backend id, event). */
    var webSockets: map<Pair, nat>

    ghost predicate Valid()
      reads http, http.durations, http.durations.Repr, proxy, proxy.durations, proxy.durations.Repr
    {
      && http.Valid() && proxy.Valid()
      && http.durations.bounds == proxy.durations.bounds == LATENCY_BUCKETS
      && http != proxy && http.durations.Repr !! proxy.durations.Repr
      && proxy !in http.durations.Repr && http !in proxy.durations.Repr
      && this !in http.durations.Repr && this !in proxy.durations.Repr
    }

    /** Everything the accumulator may ever touch. */
    ghost function Footprint(): set<object>
      reads http.durations, proxy.durations
    {
      {this, http, http.durations, proxy, proxy.durations} + http.durations.Repr + proxy.durations.Repr
    }

    constructor ()
      ensures Valid() && fresh(Footprint())
      ensures http.log == [] && proxy.log == [] && webSockets == map[]
    {
      http := new Family(LATENCY_BUCKETS);
      proxy := new Family(LATENCY_BUCKETS);
      webSockets := map[];
    }

    method RecordHttpRequest(verb: string, route: string, status: string, seconds: real)
      requires Valid()
      modifies http, http.durations.Repr
      ensures Valid() && fresh(http.durations.Repr - old(http.durations.Repr))
      ensures http.log == old(http.log) + [Observation((verb, route), status, seconds)]
    {
      http.Record(Observation((verb, route), status, seconds));
    }

    method RecordProxyRequest(protocol: string, backendId: string, outcome: string, seconds: real)
      requires Valid()
      modifies proxy, proxy.durations.Repr
      ensures Valid() && fresh(proxy.durations.Repr - old(proxy.durations.Repr))
      ensures proxy.log == old(proxy.log) + [Observation((protocol, backendId), outcome, seconds)]
    {
      proxy.Record(Observation((protocol, backendId), outcome, seconds));
    }

    /** Touches nothing that `Valid` depends on. */
    method RecordWebSocketSession(backendId: string, event: string)
      modifies this`webSockets
      ensures OneMore(old(webSockets), webSockets, (backendId, event))
    {
      var k := (backendId, event);
      webSockets := webSockets[k := 1 + if k in webSockets then webSockets[k] else 0];
    }

    /** The locked part of a scrape: five sorted listings, the histograms as copies. */
    method Scrape() returns (x: Exposition)
      requires Valid()
      ensures Exposes(x, http.log, proxy.log, webSockets) && fresh(CopiesIn(x))
    {
      var httpCounters, httpHistograms, proxyCounters, proxyHistograms := ExportTwo(http, proxy);
      var webSocketCounters := ExportSockets(webSockets);
      x := Exposition(httpCounters, httpHistograms, proxyCounters, proxyHistograms, webSocketCounters);
    }
  }
}
