/**
  What the accumulator stands for: a log of observations. Each is counted
  twice, once per (group, label) and once in the histogram of its group.
 */
module MetricsSpec {

  datatype Observation<G, L> = Observation(group: G, tag: L, seconds: real)

  type Counters<G(==), L(==)> = map<(G, L), nat>

  function Get<G, L>(m: Counters<G, L>, k: (G, L)): nat {
    if k in m then m[k] else 0
  }

  function Counts<G(==), L(==)>(log: seq<Observation<G, L>>): Counters<G, L> {
    if log == [] then map[]
    else
      var n := |log| - 1;
      var before := Counts(log[..n]);
      var k := (log[n].group, log[n].tag);
      before[k := Get(before, k) + 1]
  }

  /** The latencies observed in one group, in order. */
  function Seconds<G(==), L>(log: seq<Observation<G, L>>, group: G): seq<real> {
    if log == [] then []
    else
      var n := |log| - 1;
      Seconds(log[..n], group) + if log[n].group == group then [log[n].seconds] else []
  }

  function CountAtMost(values: seq<real>, bound: real): nat {
    if values == [] then 0
    else
      var n := |values| - 1;
      CountAtMost(values[..n], bound) + if values[n] <= bound then 1 else 0
  }

  /** The log's samples, sorted by group. */
  ghost predicate SplitByGroup<G(!new), L>(samples: map<G, seq<real>>, log: seq<Observation<G, L>>) {
    forall g :: Seconds(log, g) == SamplesOf(samples, g)
  }

  function SamplesOf<G(==)>(samples: map<G, seq<real>>, group: G): seq<real> {
    if group in samples then samples[group] else []
  }

  lemma SplitOne<G(!new), L>(samples: map<G, seq<real>>, log: seq<Observation<G, L>>, o: Observation<G, L>)
    requires SplitByGroup(samples, log)
    ensures SplitByGroup(samples[o.group := SamplesOf(samples, o.group) + [o.seconds]], log + [o])
  {
    SecondsOne(log, o);
  }

  lemma SecondsOne<G(!new), L>(log: seq<Observation<G, L>>, o: Observation<G, L>)
    ensures forall g :: Seconds(log + [o], g) == if o.group == g then Seconds(log, g) + [o.seconds] else Seconds(log, g)
  {
    assert (log + [o])[..|log|] == log;
    forall g ensures Seconds(log + [o], g) == if o.group == g then Seconds(log, g) + [o.seconds] else Seconds(log, g) {}
  }

  // ---- Histograms ----

  /** Cumulative buckets are nondecreasing in the bound and never exceed the count. */
  lemma {:induction false} BucketsNested(values: seq<real>, a: real, b: real)
    requires a <= b
    ensures CountAtMost(values, a) <= CountAtMost(values, b) <= |values|
  {
    if values != [] {
      BucketsNested(values[..|values| - 1], a, b);
    }
  }

  /** Which of the values are at most the bound. */
  ghost function AtMost(values: seq<real>, bound: real): set<int> {
    set i | 0 <= i < |values| && values[i] <= bound
  }

  /** A bucket counts positions, boundary included. */
  lemma {:induction false} CountIsCardinality(values: seq<real>, bound: real)
    ensures CountAtMost(values, bound) == |AtMost(values, bound)|
  {
    if values == [] {
      assert AtMost(values, bound) == {};
    } else {
      var n := |values| - 1;
      CountIsCardinality(values[..n], bound);
      assert AtMost(values, bound) == AtMost(values[..n], bound) + if values[n] <= bound then {n} else {};
    }
  }

  // ---- Conservation ----

  /** The sum of a group's counters over all labels. */
  ghost function SumGroup<G(!new), L(!new)>(m: Counters<G, L>, group: G): nat
    decreases |m|
  {
    if m == map[] then 0
    else
      var k :| k in m;
      assert |m - {k}| < |m|;
      (if k.0 == group then m[k] else 0) + SumGroup(m - {k}, group)
  }

  lemma {:induction false} SumRemove<G(!new), L(!new)>(m: Counters<G, L>, k: (G, L), group: G)
    requires k in m
    ensures SumGroup(m, group) == (if k.0 == group then m[k] else 0) + SumGroup(m - {k}, group)
    decreases |m|
  {
    var k0 :| k0 in m && SumGroup(m, group) == (if k0.0 == group then m[k0] else 0) + SumGroup(m - {k0}, group);
    if k0 != k {
      assert |m - {k0}| < |m| && |m - {k}| < |m|;
      SumRemove(m - {k0}, k, group);
      SumRemove(m - {k}, k0, group);
      assert m - {k0} - {k} == m - {k} - {k0};
    }
  }

  lemma SumIncrement<G(!new), L(!new)>(m: Counters<G, L>, k: (G, L), group: G)
    ensures SumGroup(m[k := Get(m, k) + 1], group) == SumGroup(m, group) + if k.0 == group then 1 else 0
  {
    var m' := m[k := Get(m, k) + 1];
    SumRemove(m', k, group);
    if k in m {
      SumRemove(m, k, group);
      assert m' - {k} == m - {k};
    } else {
      assert m' - {k} == m;
    }
  }

  /** Conservation: a group's counters, summed over labels, number its histogram's observations. */
  lemma {:induction false} Conservation<G(!new), L(!new)>(log: seq<Observation<G, L>>, group: G)
    ensures SumGroup(Counts(log), group) == |Seconds(log, group)|
  {
    if log != [] {
      var n := |log| - 1;
      Conservation(log[..n], group);
      SumIncrement(Counts(log[..n]), (log[n].group, log[n].tag), group);
    }
  }

  lemma CountsOne<G, L>(log: seq<Observation<G, L>>, o: Observation<G, L>)
    ensures var k := (o.group, o.tag);
            Counts(log + [o]) == Counts(log)[k := Get(Counts(log), k) + 1]
  {
    assert (log + [o])[..|log|] == log;
  }

  /** No counter ever decreases, and no series or sample is ever dropped. */
  lemma {:induction false} NothingIsLost<G(!new), L>(log: seq<Observation<G, L>>, more: seq<Observation<G, L>>)
    ensures forall k <- Counts(log) :: k in Counts(log + more) && Counts(log)[k] <= Counts(log + more)[k]
    ensures forall g :: Seconds(log, g) <= Seconds(log + more, g)
  {
    if more == [] {
      assert log + more == log;
    } else {
      var n := |more| - 1;
      assert log + more == (log + more[..n]) + [more[n]];
      NothingIsLost(log, more[..n]);
      CountsOne(log + more[..n], more[n]);
      SecondsOne(log + more[..n], more[n]);
    }
  }

  /** Counters and samples both follow the log, and no group is listed without a sample. */
  ghost predicate Follow<G(!new), L>(
    counters: Counters<G, L>, samples: map<G, seq<real>>, log: seq<Observation<G, L>>)
  {
    counters == Counts(log) && SplitByGroup(samples, log) && forall g <- samples :: samples[g] != []
  }

  lemma FollowOne<G(!new), L>(
    counters: Counters<G, L>, samples: map<G, seq<real>>, log: seq<Observation<G, L>>, o: Observation<G, L>)
    requires Follow(counters, samples, log)
    ensures var k := (o.group, o.tag);
            Follow(
              counters[k := Get(counters, k) + 1],
              samples[o.group := SamplesOf(samples, o.group) + [o.seconds]],
              log + [o])
  {
    CountsOne(log, o);
    SplitOne(samples, log, o);
  }

  // ---- Sorted listings ----

  ghost predicate StrictTotalOrder<K(!new)>(less: (K, K) -> bool) {
    && (forall a :: !less(a, a))
    && (forall a, b, c :: less(a, b) && less(b, c) ==> less(a, c))
    && (forall a, b :: a != b ==> less(a, b) || less(b, a))
  }

  ghost predicate StrictlySorted<K>(keys: seq<K>, less: (K, K) -> bool) {
    forall i, j | 0 <= i < j < |keys| :: less(keys[i], keys[j])
  }

  /** Two sorted listings of one key set are the same listing, whatever order they were built in. */
  lemma {:induction false} SortedListingUnique<K(!new)>(a: seq<K>, b: seq<K>, less: (K, K) -> bool)
    requires StrictTotalOrder(less) && StrictlySorted(a, less) && StrictlySorted(b, less)
    requires forall k :: k in a <==> k in b
    ensures a == b
  {
    assert b != [] ==> b[0] in b && a != [];
    if a != [] {
      assert a[0] in b;
      assert b[0] in a;
      assert a[0] == b[0];
      forall k ensures k in a[1..] <==> k in b[1..] {
        TailMembers(a, less, k);
        TailMembers(b, less, k);
      }
      assert StrictlySorted(a[1..], less) && StrictlySorted(b[1..], less);
      SortedListingUnique(a[1..], b[1..], less);
      assert a == [a[0]] + a[1..] && b == [b[0]] + b[1..];
    }
  }

  lemma TailMembers<K(!new)>(s: seq<K>, less: (K, K) -> bool, k: K)
    requires StrictTotalOrder(less) && StrictlySorted(s, less) && s != []
    ensures k in s[1..] <==> k in s && k != s[0]
  {
    if k in s[1..] {
      var i :| 1 <= i < |s| && s[i] == k;
      assert less(s[0], s[i]);
    }
    if k in s {
      var i :| 0 <= i < |s| && s[i] == k;
      assert i > 0 ==> s[1..][i - 1] == k;
    }
  }

  // ---- The hand-written orders ----

  /** Byte-wise string order. */
  predicate TextLess(a: string, b: string) {
    if b == "" then false
    else if a == "" then true
    else if a[0] != b[0] then a[0] < b[0]
    else TextLess(a[1..], b[1..])
  }

  lemma {:induction false} TextTrichotomy(a: string, b: string)
    ensures a != b ==> TextLess(a, b) || TextLess(b, a)
    ensures !(TextLess(a, b) && TextLess(b, a)) && (a == b ==> !TextLess(a, b))
    decreases |a|
  {
    if a != "" && b != "" && a[0] == b[0] {
      TextTrichotomy(a[1..], b[1..]);
      assert a == [a[0]] + a[1..] && b == [b[0]] + b[1..];
    }
  }

  lemma {:induction false} TextTransitive(a: string, b: string, c: string)
    requires TextLess(a, b) && TextLess(b, c)
    ensures TextLess(a, c)
    decreases |a|
  {
    if a != "" && a[0] == b[0] == c[0] {
      TextTransitive(a[1..], b[1..], c[1..]);
    }
  }

  /** Both exports compare the second field of the group first, then the first field, then the label. */
  predicate GroupLess(a: (string, string), b: (string, string)) {
    if a.1 != b.1 then TextLess(a.1, b.1) else TextLess(a.0, b.0)
  }

  predicate SeriesLess(a: ((string, string), string), b: ((string, string), string)) {
    if a.0 != b.0 then GroupLess(a.0, b.0) else TextLess(a.1, b.1)
  }

  /** Events sort by backend, then event: first field first. */
  predicate PlainLess(a: (string, string), b: (string, string)) {
    if a.0 != b.0 then TextLess(a.0, b.0) else TextLess(a.1, b.1)
  }

  /** The comparators look at every field of a key, so no two series tie. */
  lemma OrdersAreTotal()
    ensures StrictTotalOrder(GroupLess)
    ensures StrictTotalOrder(SeriesLess)
    ensures StrictTotalOrder(PlainLess)
  {
    forall a, b ensures !TextLess(a, a) && (a != b ==> TextLess(a, b) || TextLess(b, a)) {
      TextTrichotomy(a, a);
      TextTrichotomy(a, b);
    }
    forall a, b, c | TextLess(a, b) && TextLess(b, c) ensures TextLess(a, c) && a != c && a != b {
      TextTransitive(a, b, c);
      TextTrichotomy(a, c);
      TextTrichotomy(a, b);
    }
  }

  /** Text compares at the first difference; a proper prefix comes first. */
  lemma {:induction false} TextByFirstDifference(head: string, c: char, d: char, x: string, y: string)
    requires c < d
    ensures TextLess(head + [c] + x, head + [d] + y) && !TextLess(head + [d] + y, head + [c] + x)
    ensures TextLess(head, head + [c] + x) && !TextLess(head + [c] + x, head)
  {
    if head != "" {
      TextByFirstDifference(head[1..], c, d, x, y);
      assert (head + [c] + x)[1..] == head[1..] + [c] + x && (head + [d] + y)[1..] == head[1..] + [d] + y;
    }
  }

  /**
    Series sort by route, then method, then status; or by backend, then protocol,
    then outcome. Events sort by backend first.
   */
  lemma SeriesOrder(a: string, b: string, x: string, c: string, d: string, y: string)
    ensures SeriesLess(((a, b), x), ((c, d), y)) <==>
              TextLess(b, d) || (b == d && (TextLess(a, c) || (a == c && TextLess(x, y))))
    ensures GroupLess((a, b), (c, d)) <==> TextLess(b, d) || (b == d && TextLess(a, c))
    ensures PlainLess((a, b), (c, d)) <==> TextLess(a, c) || (a == c && TextLess(b, d))
  {
    TextTrichotomy(a, c);
    TextTrichotomy(b, d);
  }
}
