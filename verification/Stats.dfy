/** Counters of the statistics collector, upstream latency accounting and top-k selection. */
module Stats {
  import opened Prelude
  import opened Permutations

  // ----- the query counters as a value -----------------------------------------------

  datatype Counters = Counters(
    total: u64, blocked: u64, hits: u64,
    clientQueries: map<string, u64>, clientBlocks: map<string, u64>,
    domainQueries: map<string, u64>, domainBlocks: map<string, u64>,
    bySource: seq<u64>)

  const SOURCES: nat := 256
  const TRACKED: nat := 16

  function Zeros(n: nat): seq<u64> { seq(n, i => 0) }

  function NoCounts(): Counters { Counters(0, 0, 0, map[], map[], map[], map[], Zeros(SOURCES)) }

  // ----- upstream latency ------------------------------------------------------------

  datatype Latency = Latency(totalMs: seq<u64>, count: seq<u64>)

  /** One answered lookup: which upstream answered, and after how long. */
  datatype Sample = Sample(upstream: nat, ms: u64)

  function NoSamples(): Latency { Latency(Zeros(TRACKED), Zeros(TRACKED)) }

  function Record(l: Latency, x: Sample): Latency
    requires |l.totalMs| == |l.count| == TRACKED
  {
    if x.upstream < TRACKED then
      Latency(l.totalMs[x.upstream := Wrap(l.totalMs[x.upstream] + x.ms)], BumpCell(l.count, x.upstream))
    else l
  }

  function UpstreamOf(x: Sample): Option<nat> { Some(x.upstream) }

  function TotalMs(samples: seq<Sample>, upstream: nat): nat {
    if samples == [] then 0
    else
      var x := samples[|samples| - 1];
      TotalMs(samples[..|samples| - 1], upstream) + (if x.upstream == upstream then x.ms else 0)
  }

  /** The arrays hold exactly what these samples add up to. */
  ghost predicate Accounts(l: Latency, samples: seq<Sample>) {
    && |l.totalMs| == |l.count| == TRACKED
    && CellTally(l.count, samples, UpstreamOf)
    && forall i: nat :: i < TRACKED ==> l.totalMs[i] == Wrap(TotalMs(samples, i))
  }

  lemma TotalMsAppend(samples: seq<Sample>, x: Sample, upstream: nat)
    ensures TotalMs(samples + [x], upstream) ==
            TotalMs(samples, upstream) + (if x.upstream == upstream then x.ms else 0)
  {
    assert (samples + [x])[..|samples|] == samples;
  }

  lemma WrapAdd(n: nat, d: nat)
    ensures Wrap(Wrap(n) + d) == Wrap(n + d)
  {}

  lemma RecordAccounts(l: Latency, samples: seq<Sample>, x: Sample)
    requires Accounts(l, samples)
    ensures Accounts(Record(l, x), samples + [x])
  {
    CellTallyAppend(l.count, samples, x, UpstreamOf);
    assert UpstreamOf(x) == Some(x.upstream);
    forall i: nat | i < TRACKED ensures Record(l, x).totalMs[i] == Wrap(TotalMs(samples + [x], i)) {
      TotalMsAppend(samples, x, i);
      WrapAdd(TotalMs(samples, i), x.ms);
    }
  }

  /** With at most 16 upstreams the counts add up to the number of samples. */
  lemma CountsSumToSamples(l: Latency, samples: seq<Sample>)
    requires Accounts(l, samples) && |samples| < U64
    ensures (forall x :: x in samples ==> x.upstream < 16) <==> Sum(l.count) == |samples|
  {
    CellTallySumTo(l.count, samples, UpstreamOf);
    CountBound(samples, Below(UpstreamOf, TRACKED));
    forall x: Sample ensures Below(UpstreamOf, TRACKED)(x) <==> x.upstream < TRACKED {
      assert UpstreamOf(x) == Some(x.upstream);
    }
  }

  /** What the statistics dump prints for number k: the configured name at k, if there is one. */
  function PrintedLabel(names: seq<string>, k: nat): string { if k < |names| then names[k] else "Unknown" }

  // ----- top-k -----------------------------------------------------------------------

  datatype TopItem = TopItem(name: string, count: u64)

  predicate Descending(s: seq<TopItem>) { forall i, j :: 0 <= i < j < |s| ==> s[i].count >= s[j].count }

  /** s lists every entry of m, each once. */
  ghost predicate Enumerates(s: seq<TopItem>, m: map<string, u64>) {
    && |s| == |m|
    && forall it :: multiset(s)[it] == if it.name in m && m[it.name] == it.count then 1 else 0
  }

  function Insert(x: TopItem, s: seq<TopItem>): seq<TopItem> {
    if s == [] || x.count > s[0].count then [x] + s else [s[0]] + Insert(x, s[1..])
  }

  /** The stable descending order that `sort_by` establishes. */
  function SortDescending(s: seq<TopItem>): seq<TopItem> {
    if s == [] then [] else Insert(s[|s| - 1], SortDescending(s[..|s| - 1]))
  }

  lemma DescendingCons(h: TopItem, t: seq<TopItem>)
    requires Descending(t) && (t != [] ==> h.count >= t[0].count)
    ensures Descending([h] + t)
  {}

  lemma {:induction false} InsertKeepsOrder(x: TopItem, s: seq<TopItem>)
    requires Descending(s)
    ensures Descending(Insert(x, s))
    ensures Insert(x, s)[0] == if s == [] || x.count > s[0].count then x else s[0]
  {
    if s == [] || x.count > s[0].count {
      DescendingCons(x, s);
    } else {
      InsertKeepsOrder(x, s[1..]);
      DescendingCons(s[0], Insert(x, s[1..]));
    }
  }

  lemma {:induction false} InsertAddsOne(x: TopItem, s: seq<TopItem>)
    ensures multiset(Insert(x, s)) == multiset(s) + multiset{x}
    ensures |Insert(x, s)| == |s| + 1
  {
    if s != [] && x.count <= s[0].count {
      InsertAddsOne(x, s[1..]);
      assert s == [s[0]] + s[1..];
    }
  }

  lemma {:induction false} SortKeepsItems(s: seq<TopItem>)
    ensures multiset(SortDescending(s)) == multiset(s)
    ensures |SortDescending(s)| == |s|
  {
    if s != [] {
      var n := |s| - 1;
      SortKeepsItems(s[..n]);
      InsertAddsOne(s[n], SortDescending(s[..n]));
      assert multiset(s) == multiset(s[..n]) + multiset{s[n]} by { assert s == s[..n] + [s[n]]; }
    }
  }

  lemma {:induction false} SortSorts(s: seq<TopItem>)
    ensures Descending(SortDescending(s))
    ensures multiset(SortDescending(s)) == multiset(s)
    ensures |SortDescending(s)| == |s|
  {
    SortKeepsItems(s);
    if s != [] {
      SortSorts(s[..|s| - 1]);
      InsertKeepsOrder(s[|s| - 1], SortDescending(s[..|s| - 1]));
    }
  }

  /** r is a correct answer to "the k largest counts of m". */
  ghost predicate TopOf(m: map<string, u64>, k: nat, r: seq<TopItem>) {
    && |r| == Min(k, |m|)
    && Descending(r)
    && (forall i :: 0 <= i < |r| ==> r[i].name in m && m[r[i].name] == r[i].count)
    && (forall i, j :: 0 <= i < j < |r| ==> r[i].name != r[j].name)
    && (forall key, i :: key in m && 0 <= i < |r| && TopItem(key, m[key]) !in r ==> m[key] <= r[i].count)
  }

  lemma TwiceInMultiset<T>(s: seq<T>, i: nat, j: nat)
    requires i < j < |s| && s[i] == s[j]
    ensures multiset(s)[s[i]] >= 2
  {
    assert s == s[..j] + s[j..];
    assert s[i] in multiset(s[..j]) by { assert s[..j][i] == s[i]; }
    assert s[j] in multiset(s[j..]) by { assert s[j..][0] == s[j]; }
  }

  lemma EnumerationIsFaithful(m: map<string, u64>, s: seq<TopItem>)
    requires Enumerates(s, m)
    ensures forall i :: 0 <= i < |s| ==> s[i].name in m && m[s[i].name] == s[i].count
    ensures forall i, j :: 0 <= i < j < |s| ==> s[i].name != s[j].name
    ensures forall key :: key in m ==> TopItem(key, m[key]) in s
  {
    forall i | 0 <= i < |s| ensures s[i].name in m && m[s[i].name] == s[i].count {
      assert s[i] in multiset(s);
    }
    forall i, j | 0 <= i < j < |s| ensures s[i].name != s[j].name {
      if s[i].name == s[j].name { TwiceInMultiset(s, i, j); assert false; }
    }
    forall key | key in m ensures TopItem(key, m[key]) in s {
      assert TopItem(key, m[key]) in multiset(s);
    }
  }

  lemma OmittedItemIsLower(s: seq<TopItem>, n: nat, x: TopItem, i: nat)
    requires Descending(s) && i < n <= |s| && x in s && x !in s[..n]
    ensures x.count <= s[i].count
  {
    var j :| 0 <= j < |s| && s[j] == x;
    assert forall l :: 0 <= l < n ==> s[..n][l] == s[l];
  }

  lemma PrefixOfSortedIsTop(m: map<string, u64>, k: nat, s: seq<TopItem>)
    requires |s| == |m| && Descending(s)
    requires forall i :: 0 <= i < |s| ==> s[i].name in m && m[s[i].name] == s[i].count
    requires forall i, j :: 0 <= i < j < |s| ==> s[i].name != s[j].name
    requires forall key :: key in m ==> TopItem(key, m[key]) in s
    ensures TopOf(m, k, s[..Min(k, |m|)])
  {
    var n := Min(k, |m|);
    forall key, i | key in m && 0 <= i < n && TopItem(key, m[key]) !in s[..n] ensures m[key] <= s[i].count {
      OmittedItemIsLower(s, n, TopItem(key, m[key]), i);
    }
  }

  /** An item of one answer that beats position i of the other comes before it there. */
  lemma HigherItemComesEarlier(m: map<string, u64>, k: nat, low: seq<TopItem>, i: nat, x: TopItem)
    requires TopOf(m, k, low) && i < |low|
    requires x.name in m && m[x.name] == x.count && x.count > low[i].count
    ensures x in low[..i]
  {
    assert x == TopItem(x.name, m[x.name]);
    assert x in low;
    var l :| 0 <= l < |low| && low[l] == x;
    assert l < i;
    assert low[..i][l] == x;
  }

  lemma HigherItemsComeEarlier(m: map<string, u64>, k: nat, low: seq<TopItem>, high: seq<TopItem>, i: nat)
    requires TopOf(m, k, low) && TopOf(m, k, high) && i < |low| && low[i].count < high[i].count
    ensures forall x :: x in high[..i + 1] ==> x in low[..i]
  {
    var hs := high[..i + 1];
    forall j | 0 <= j < |hs| ensures hs[j] in low[..i] {
      assert hs[j] == high[j] && high[j].count >= high[i].count;
      HigherItemComesEarlier(m, k, low, i, high[j]);
    }
  }

  lemma PrefixIsDistinct(m: map<string, u64>, k: nat, s: seq<TopItem>, n: nat)
    requires TopOf(m, k, s) && n <= |s|
    ensures Distinct(s[..n])
  {
    assert forall j :: 0 <= j < n ==> s[..n][j] == s[j];
  }

  /** Otherwise the i + 1 first items of high would all be among the i first of low. */
  lemma HigherPrefixIsShort(m: map<string, u64>, k: nat, low: seq<TopItem>, high: seq<TopItem>, i: nat)
    requires TopOf(m, k, low) && TopOf(m, k, high) && i < |low|
    ensures low[i].count >= high[i].count
  {
    if low[i].count < high[i].count {
      HigherItemsComeEarlier(m, k, low, high, i);
      PrefixIsDistinct(m, k, high, i + 1);
      PrefixIsDistinct(m, k, low, i);
      DistinctFit(high[..i + 1], low[..i]);
      assert false;
    }
  }

  lemma DistinctFit<T>(a: seq<T>, b: seq<T>)
    requires Distinct(a) && Distinct(b) && forall x :: x in a ==> x in b
    ensures |a| <= |b|
  {
    DistinctCard(a, set x | x in a);
    DistinctCard(b, set x | x in b);
    SubsetCard(set x | x in a, set x | x in b);
  }

  lemma SubsetCard<T>(a: set<T>, b: set<T>)
    requires a <= b
    ensures |a| <= |b|
  {
    assert b == a + (b - a);
  }

  /** Every correct answer has the same counts in the same places, whatever the iteration order. */
  lemma TopCountsAreUnique(m: map<string, u64>, k: nat, r: seq<TopItem>, r': seq<TopItem>, i: nat)
    requires TopOf(m, k, r) && TopOf(m, k, r') && i < |r|
    ensures r[i].count == r'[i].count
  {
    HigherPrefixIsShort(m, k, r, r', i);
    HigherPrefixIsShort(m, k, r', r, i);
  }

  // ----- the collector ----------------------------------------------------------------

  datatype Snapshot = Snapshot(
    total: u64, blocked: u64, hits: u64,
    topClients: seq<TopItem>, topBlockedClients: seq<TopItem>,
    topDomains: seq<TopItem>, topBlockedDomains: seq<TopItem>)

  class StatsCollector {
    var totalQueries: u64
    var blockedQueries: u64
    var cacheHits: u64
    var clientQueries: map<string, u64>
    var clientBlocks: map<string, u64>
    var domainQueries: map<string, u64>
    var domainBlocks: map<string, u64>
    const blockedBySource: array<u64>
    const upstreamTotalMs: array<u64>
    const upstreamCount: array<u64>
    ghost var samples: seq<Sample>  // every latency recorded so far

    ghost predicate Valid()
      reads this
    {
      && blockedBySource.Length == SOURCES
      && upstreamTotalMs.Length == upstreamCount.Length == TRACKED
      && upstreamTotalMs != upstreamCount && blockedBySource != upstreamTotalMs && blockedBySource != upstreamCount
    }

    /** The latency arrays hold what the recorded samples add up to. */
    ghost predicate Accounted()
      reads this, upstreamTotalMs, upstreamCount
    {
      Accounts(LatencyView(), samples)
    }

    ghost function View(): Counters
      reads this, blockedBySource
    {
      Counters(totalQueries, blockedQueries, cacheHits, clientQueries, clientBlocks, domainQueries, domainBlocks,
               blockedBySource[..])
    }

    ghost function LatencyView(): Latency
      reads upstreamTotalMs, upstreamCount
    {
      Latency(upstreamTotalMs[..], upstreamCount[..])
    }

    constructor ()
      ensures Valid() && Accounted() && View() == NoCounts() && samples == []
      ensures fresh(blockedBySource) && fresh(upstreamTotalMs) && fresh(upstreamCount)
    {
      totalQueries, blockedQueries, cacheHits := 0, 0, 0;
      clientQueries, clientBlocks, domainQueries, domainBlocks := map[], map[], map[], map[];
      blockedBySource := new u64[SOURCES](i => 0);
      upstreamTotalMs := new u64[TRACKED](i => 0);
      upstreamCount := new u64[TRACKED](i => 0);
      samples := [];
      new;
      assert blockedBySource[..] == NoCounts().bySource;
      assert LatencyView() == NoSamples();
    }

    method IncQueries()
      requires Valid()
      modifies this`totalQueries
      ensures Valid() && View() == old(View()).(total := Inc(old(totalQueries)))
    {
      totalQueries := Inc(totalQueries);
    }

    method IncBlocked()
      requires Valid()
      modifies this`blockedQueries
      ensures Valid() && View() == old(View()).(blocked := Inc(old(blockedQueries)))
    {
      blockedQueries := Inc(blockedQueries);
    }

    method IncCacheHit()
      requires Valid()
      modifies this`cacheHits
      ensures Valid() && View() == old(View()).(hits := Inc(old(cacheHits)))
    {
      cacheHits := Inc(cacheHits);
    }

    /** The per-source half of `inc_blocked_by_source`. */
    method IncSource(sourceId: u8)
      requires Valid()
      modifies blockedBySource
      ensures Valid() && View() == old(View()).(bySource := BumpCell(old(blockedBySource[..]), sourceId))
    {
      blockedBySource[sourceId] := Inc(blockedBySource[sourceId]);
    }

    method IncBlockedBySource(sourceId: u8)
      requires Valid()
      modifies this`blockedQueries, blockedBySource
      ensures Valid()
      ensures View() == old(View()).(blocked := Inc(old(blockedQueries)),
                                     bySource := BumpCell(old(blockedBySource[..]), sourceId))
    {
      IncBlocked();
      IncSource(sourceId);
    }

    method IncClientQuery(client: string)
      requires Valid()
      modifies this`clientQueries
      ensures Valid() && View() == old(View()).(clientQueries := Bump(old(clientQueries), client))
    {
      clientQueries := clientQueries[client := Inc(Get(clientQueries, client))];
    }

    method IncClientBlock(client: string)
      requires Valid()
      modifies this`clientBlocks
      ensures Valid() && View() == old(View()).(clientBlocks := Bump(old(clientBlocks), client))
    {
      clientBlocks := clientBlocks[client := Inc(Get(clientBlocks, client))];
    }

    method IncDomainQuery(domain: string)
      requires Valid()
      modifies this`domainQueries
      ensures Valid() && View() == old(View()).(domainQueries := Bump(old(domainQueries), domain))
    {
      domainQueries := domainQueries[domain := Inc(Get(domainQueries, domain))];
    }

    method IncDomainBlock(domain: string)
      requires Valid()
      modifies this`domainBlocks
      ensures Valid() && View() == old(View()).(domainBlocks := Bump(old(domainBlocks), domain))
    {
      domainBlocks := domainBlocks[domain := Inc(Get(domainBlocks, domain))];
    }

    method RecordUpstreamLatency(upstreamIdx: nat, ms: u64)
      requires Valid() && Accounted()
      modifies this`samples, upstreamTotalMs, upstreamCount
      ensures Valid() && Accounted() && samples == old(samples) + [Sample(upstreamIdx, ms)]
      ensures View() == old(View())
    {
      ghost var x := Sample(upstreamIdx, ms);
      RecordAccounts(LatencyView(), samples, x);
      ghost var expected := Record(LatencyView(), x);
      if upstreamIdx < TRACKED {
        upstreamTotalMs[upstreamIdx] := Wrap(upstreamTotalMs[upstreamIdx] + ms);
        upstreamCount[upstreamIdx] := Inc(upstreamCount[upstreamIdx]);
      }
      samples := samples + [x];
      assert LatencyView() == expected;
    }

    /** The k most frequent keys, whatever order the map is iterated in. */
    method GetTopK(m: map<string, u64>, k: nat) returns (top: seq<TopItem>)
      ensures TopOf(m, k, top)
    {
      var items: seq<TopItem> := [];
      var rest := m;
      while rest != map[]
        invariant rest.Keys <= m.Keys && forall key :: key in rest ==> rest[key] == m[key]
        invariant |items| + |rest| == |m|
        invariant forall it :: multiset(items)[it] ==
                               if it.name in m && it.name !in rest && m[it.name] == it.count then 1 else 0
        decreases |rest|
      {
        var key :| key in rest;
        SmallerMap(rest, key);
        ShrinksByOne(rest, key);
        items := items + [TopItem(key, rest[key])];
        rest := rest - {key};
      }
      SortSorts(items);
      var sorted := SortDescending(items);
      EnumerationIsFaithful(m, sorted);
      PrefixOfSortedIsTop(m, k, sorted);
      top := sorted[..Min(k, |sorted|)];
    }

    lemma ShrinksByOne(m: map<string, u64>, key: string)
      requires key in m
      ensures |m - {key}| == |m| - 1
    {
      assert (m - {key}).Keys == m.Keys - {key};
    }

    method GetSnapshot() returns (s: Snapshot)
      ensures s.total == totalQueries && s.blocked == blockedQueries && s.hits == cacheHits
      ensures TopOf(clientQueries, 5, s.topClients) && TopOf(clientBlocks, 5, s.topBlockedClients)
      ensures TopOf(domainQueries, 5, s.topDomains) && TopOf(domainBlocks, 5, s.topBlockedDomains)
    {
      var clients := GetTopK(clientQueries, 5);
      var blockedClients := GetTopK(clientBlocks, 5);
      var domains := GetTopK(domainQueries, 5);
      var blockedDomains := GetTopK(domainBlocks, 5);
      s := Snapshot(totalQueries, blockedQueries, cacheHits, clients, blockedClients, domains, blockedDomains);
    }
  }
}
