/** The four resolution policies over a list of upstreams whose lookups have arbitrary outcomes. */
module Resolvers {
  import opened Prelude
  import opened Permutations
  import opened Dns
  import opened Stats

  datatype Lookup = Found(records: seq<Record>) | Failure(message: string)

  /** An upstream's outcome for one query, and the time since the query began when it is known. */
  datatype Reply = Reply(lookup: Lookup, elapsedMs: u64)

  datatype Upstream = Upstream(url: string)

  const NO_RECORDS := "no records found"

  predicate Contains(s: string, part: string) {
    part <= s || (s != "" && Contains(s[1..], part))
  }

  predicate OccursAt(part: string, s: string, i: int) { 0 <= i <= |s| - |part| && s[i..i + |part|] == part }

  /** The part occurs somewhere in s. */
  ghost predicate Occurs(part: string, s: string) { exists i :: OccursAt(part, s, i) }

  lemma OccursShifted(s: string, part: string, i: int)
    requires s != ""
    ensures OccursAt(part, s[1..], i) ==> OccursAt(part, s, i + 1)
    ensures i > 0 && OccursAt(part, s, i) ==> OccursAt(part, s[1..], i - 1)
  {
    if 0 <= i <= |s[1..]| - |part| { assert s[1..][i..i + |part|] == s[i + 1..i + 1 + |part|]; }
    if 0 < i <= |s| - |part| { assert s[1..][i - 1..i - 1 + |part|] == s[i..i + |part|]; }
  }

  lemma OccursAtStart(s: string, part: string)
    ensures OccursAt(part, s, 0) <==> part <= s
  {
    if |part| <= |s| { assert s[0..0 + |part|] == s[..|part|]; }
  }

  lemma {:induction false} ContainsIffOccurs(s: string, part: string)
    ensures Contains(s, part) <==> Occurs(part, s)
  {
    OccursAtStart(s, part);
    if !(part <= s) && s != "" {
      ContainsIffOccurs(s[1..], part);
      if i :| OccursAt(part, s[1..], i) { OccursShifted(s, part, i); }
      if i :| OccursAt(part, s, i) { OccursShifted(s, part, i); }
    }
  }

  /** "No records found" arrives as an error and counts as an empty answer (NODATA). */
  function AnswerOf(l: Lookup): Option<seq<Record>> {
    match l
    case Found(records) => Some(records)
    case Failure(message) => if Contains(message, NO_RECORDS) then Some([]) else None
  }

  predicate Answers(r: Reply) { AnswerOf(r.lookup).Some? }

  /** What counts as an answer: the records found, or none if the error says anywhere that there are none. */
  lemma AnswerIsExact(l: Lookup)
    ensures l.Found? ==> AnswerOf(l) == Some(l.records)
    ensures l.Failure? && Occurs("no records found", l.message) ==> AnswerOf(l) == Some([])
    ensures l.Failure? && !Occurs("no records found", l.message) ==> AnswerOf(l) == None
  {
    if l.Failure? { ContainsIffOccurs(l.message, NO_RECORDS); }
  }

  method HandleLookupResult(r: Reply, stats: StatsCollector, idx: nat, url: string) returns (res: Resolution)
    requires stats.Valid() && stats.Accounted()
    modifies stats`samples, stats.upstreamTotalMs, stats.upstreamCount
    ensures stats.Valid() && stats.Accounted() && stats.View() == old(stats.View())
    ensures if Answers(r) then
              && res == Resolved(AnswerOf(r.lookup).value, url)
              && stats.samples == old(stats.samples) + [Sample(idx, r.elapsedMs)]
            else
              res.Failed? && stats.samples == old(stats.samples)
    ensures match r.lookup
            case Found(records) => res == Resolved(records, url)
            case Failure(message) =>
              if Occurs("no records found", message) then res == Resolved([], url) else res == Failed(message)
  {
    if r.lookup.Failure? { ContainsIffOccurs(r.lookup.message, NO_RECORDS); }
    match r.lookup
    case Found(records) =>
      stats.RecordUpstreamLatency(idx, r.elapsedMs);
      res := Resolved(records, url);
    case Failure(message) =>
      if Contains(message, NO_RECORDS) {
        stats.RecordUpstreamLatency(idx, r.elapsedMs);
        res := Resolved([], url);
      } else {
        res := Failed(message);
      }
  }

  // ----- what a policy owes, given the order in which it considers upstreams -------------

  /** The position in the order of the first upstream that answers. */
  function FirstAnswer(replies: seq<Reply>, order: seq<nat>): (p: Option<nat>)
    requires forall i :: 0 <= i < |order| ==> order[i] < |replies|
    ensures p.Some? ==> p.value < |order| && Answers(replies[order[p.value]]) &&
                        forall i :: 0 <= i < p.value ==> !Answers(replies[order[i]])
    ensures p.None? ==> forall i :: 0 <= i < |order| ==> !Answers(replies[order[i]])
  {
    if order == [] then None
    else if Answers(replies[order[0]]) then Some(0)
    else
      match FirstAnswer(replies, order[1..])
      case None => None
      case Some(p) => Some(p + 1)
  }

  /** r is the first answer in the order, paired with that upstream's own url, or an error if none answers. */
  ghost predicate Decides(upstreams: seq<Upstream>, replies: seq<Reply>, order: seq<nat>, r: Resolution)
    requires |replies| == |upstreams| && IsPermutation(order, |upstreams|)
  {
    match FirstAnswer(replies, order)
    case None => r.Failed?
    case Some(p) => r == Resolved(AnswerOf(replies[order[p]].lookup).value, upstreams[order[p]].url)
  }

  /** And samples records that one answer; no answer, no sample. */
  ghost predicate Follows(upstreams: seq<Upstream>, replies: seq<Reply>, order: seq<nat>,
                          r: Resolution, samples: seq<Sample>)
    requires |replies| == |upstreams| && IsPermutation(order, |upstreams|)
  {
    && Decides(upstreams, replies, order, r)
    && match FirstAnswer(replies, order)
       case None => samples == []
       case Some(p) => samples == [Sample(order[p], replies[order[p]].elapsedMs)]
  }

  lemma {:induction false} FirstAnswerIs(replies: seq<Reply>, order: seq<nat>, p: nat)
    requires forall i :: 0 <= i < |order| ==> order[i] < |replies|
    requires p < |order| && Answers(replies[order[p]])
    requires forall i :: 0 <= i < p ==> !Answers(replies[order[i]])
    ensures FirstAnswer(replies, order) == Some(p)
  {
    if p > 0 {
      forall i | 0 <= i < p - 1 ensures !Answers(replies[order[1..][i]]) {
        assert order[1..][i] == order[i + 1];
      }
      FirstAnswerIs(replies, order[1..], p - 1);
    }
  }

  class SingleResolver {
    const upstream: Upstream
    const stats: StatsCollector

    constructor (upstream: Upstream, stats: StatsCollector)
      ensures this.upstream == upstream && this.stats == stats
    {
      this.upstream, this.stats := upstream, stats;
    }

    method Resolve(replies: seq<Reply>) returns (r: Resolution)
      requires |replies| == 1 && stats.Valid() && stats.Accounted()
      modifies stats`samples, stats.upstreamTotalMs, stats.upstreamCount
      ensures stats.Valid() && stats.Accounted() && old(stats.samples) <= stats.samples
      ensures IsPermutation([0], 1) && Follows([upstream], replies, [0], r, stats.samples[|old(stats.samples)|..])
    {
      r := HandleLookupResult(replies[0], stats, 0, upstream.url);
      match r
      case Resolved(_, _) => FirstAnswerIs(replies, [0], 0);
      case Failed(_) => r := Failed("Upstream failed");
    }
  }

  class SequentialResolver {
    const upstreams: seq<Upstream>
    const stats: StatsCollector

    constructor (upstreams: seq<Upstream>, stats: StatsCollector)
      ensures this.upstreams == upstreams && this.stats == stats
    {
      this.upstreams, this.stats := upstreams, stats;
    }

    method Resolve(replies: seq<Reply>) returns (r: Resolution)
      requires |replies| == |upstreams| && stats.Valid() && stats.Accounted()
      modifies stats`samples, stats.upstreamTotalMs, stats.upstreamCount
      ensures stats.Valid() && stats.Accounted() && old(stats.samples) <= stats.samples
      ensures IsPermutation(Identity(|upstreams|), |upstreams|)
      ensures Follows(upstreams, replies, Identity(|upstreams|), r, stats.samples[|old(stats.samples)|..])
    {
      ghost var order := Identity(|upstreams|);
      for idx := 0 to |upstreams|
        invariant stats.Valid() && stats.Accounted() && stats.samples == old(stats.samples)
        invariant forall i :: 0 <= i < idx ==> !Answers(replies[i])
      {
        r := HandleLookupResult(replies[idx], stats, idx, upstreams[idx].url);
        if r.Resolved? {
          FirstAnswerIs(replies, order, idx);
          return;
        }
      }
      r := Failed("All upstreams failed");
    }
  }

  class RoundRobinResolver {
    const upstreams: seq<Upstream>
    const stats: StatsCollector
    var current: u64

    constructor (upstreams: seq<Upstream>, stats: StatsCollector)
      ensures this.upstreams == upstreams && this.stats == stats && current == 0
    {
      this.upstreams, this.stats := upstreams, stats;
      current := 0;
    }

    /** `tried` lists the upstreams asked: a prefix of the rotation, all of it exactly when every one fails. */
    method Resolve(replies: seq<Reply>) returns (r: Resolution, ghost tried: seq<nat>)
      requires |replies| == |upstreams| > 0 && stats.Valid() && stats.Accounted()
      modifies this`current, stats`samples, stats.upstreamTotalMs, stats.upstreamCount
      ensures stats.Valid() && stats.Accounted() && old(stats.samples) <= stats.samples
      ensures current == Inc(old(current))
      ensures IsPermutation(Rotation(old(current) % |upstreams|, |upstreams|), |upstreams|)
      ensures Follows(upstreams, replies, Rotation(old(current) % |upstreams|, |upstreams|), r,
                      stats.samples[|old(stats.samples)|..])
      ensures tried != [] && tried <= Rotation(old(current) % |upstreams|, |upstreams|)
      ensures forall i :: 0 <= i < |tried| ==>
                            tried[i] < |upstreams| &&
                            (Answers(replies[tried[i]]) <==> r.Resolved? && i == |tried| - 1)
      ensures r.Failed? ==> |tried| == |upstreams|
    {
      var n := |upstreams|;
      var startIndex := current % n;
      current := Inc(current);
      ghost var order := Rotation(startIndex, n);
      RotationIsPermutation(startIndex, n);
      tried := [];
      for i := 0 to n
        invariant stats.Valid() && stats.Accounted() && stats.samples == old(stats.samples)
        invariant current == Inc(old(current)) && tried == order[..i]
        invariant forall j :: 0 <= j < i ==> !Answers(replies[order[j]])
      {
        var idx := (startIndex + i) % n;
        assert idx == order[i];
        tried := tried + [idx];
        r := HandleLookupResult(replies[idx], stats, idx, upstreams[idx].url);
        if r.Resolved? {
          FirstAnswerIs(replies, order, i);
          return;
        }
      }
      r := Failed("All upstreams failed");
    }
  }

  predicate IsSuccess(r: Resolution) { r.Resolved? }

  /** Calls to a resolver, their results, and the upstreams that were asked first. */
  datatype CallRun = CallRun(calls: seq<Call>, results: seq<Resolution>, starts: seq<nat>)

  /** The run is of these queries, and samples is what it has added to the latency record. */
  ghost predicate IsRunOf(run: CallRun, queries: seq<seq<Reply>>, samples: seq<Sample>, upstreams: seq<Upstream>) {
    && |run.calls| == |run.results| == |queries|
    && (forall k :: 0 <= k < |queries| ==> run.calls[k].replies == queries[k])
    && SampledBy(samples, run.calls, upstreams)
    && Count(run.results, IsSuccess) == Count(run.calls, Succeeds)
  }

  /** One more call, after i of them from counter value c on. */
  method ResolveNext(resolver: RoundRobinResolver, query: seq<Reply>, run: CallRun,
                     ghost queries: seq<seq<Reply>>, ghost earlier: seq<Sample>, ghost c: u64, ghost i: nat)
    returns (run': CallRun)
    requires |query| == |resolver.upstreams| > 0 && resolver.stats.Valid() && resolver.stats.Accounted()
    requires earlier <= resolver.stats.samples
    requires resolver.current == Wrap(c + i) && run.starts == Starts(c, i, |resolver.upstreams|)
    requires IsRunOf(run, queries, resolver.stats.samples[|earlier|..], resolver.upstreams)
    modifies resolver`current, resolver.stats`samples, resolver.stats.upstreamTotalMs, resolver.stats.upstreamCount
    ensures resolver.stats.Valid() && resolver.stats.Accounted()
    ensures resolver.current == Wrap(c + (i + 1)) && run'.starts == Starts(c, i + 1, |resolver.upstreams|)
    ensures earlier <= resolver.stats.samples
    ensures IsRunOf(run', queries + [query], resolver.stats.samples[|earlier|..], resolver.upstreams)
  {
    var start := resolver.current % |resolver.upstreams|;
    var call := Call(query, Rotation(start, |resolver.upstreams|));
    ghost var before := resolver.stats.samples;
    var r, tried := resolver.Resolve(query);
    WrapInc(c + i);
    StartsGrow(c, i, |resolver.upstreams|);
    RunExtends(run, queries, earlier, before, resolver.stats.samples, call, resolver.upstreams, r);
    run' := CallRun(run.calls + [call], run.results + [r], run.starts + [start]);
  }

  lemma RunExtends(run: CallRun, queries: seq<seq<Reply>>, earlier: seq<Sample>, before: seq<Sample>,
                   after: seq<Sample>, call: Call, upstreams: seq<Upstream>, r: Resolution)
    requires earlier <= before <= after && IsRunOf(run, queries, before[|earlier|..], upstreams)
    requires WellFormed(call, |upstreams|) && Follows(upstreams, call.replies, call.order, r, after[|before|..])
    ensures IsRunOf(run.(calls := run.calls + [call], results := run.results + [r]), queries + [call.replies],
                    after[|earlier|..], upstreams)
  {
    SampledByAppend(earlier, before, after, run.calls, call, upstreams, r);
    SuccessAppend(run.results, run.calls, call, upstreams, r, after[|before|..]);
  }

  /** A run of calls to a round-robin resolver, in the order their counter increments take effect. The calls start at
      the counter's residues; from a fresh collector and with at most 16 upstreams, the latency counts add up to the
      results that are successes. */
  method ResolveAll(resolver: RoundRobinResolver, queries: seq<seq<Reply>>)
    returns (run: CallRun)
    requires resolver.upstreams != [] && resolver.stats.Valid() && resolver.stats.Accounted()
    requires forall q :: q in queries ==> |q| == |resolver.upstreams|
    modifies resolver`current, resolver.stats`samples, resolver.stats.upstreamTotalMs, resolver.stats.upstreamCount
    ensures resolver.stats.Valid() && resolver.stats.Accounted()
    ensures resolver.current == Wrap(old(resolver.current) + |queries|)
    ensures run.starts == Starts(old(resolver.current), |queries|, |resolver.upstreams|)
    ensures SharedFairly(run.starts, old(resolver.current), |resolver.upstreams|)
    ensures old(resolver.stats.samples) <= resolver.stats.samples
    ensures IsRunOf(run, queries, resolver.stats.samples[|old(resolver.stats.samples)|..], resolver.upstreams)
    ensures old(resolver.stats.samples) == [] && |resolver.upstreams| <= TRACKED && |queries| < U64 ==>
              Sum(resolver.stats.upstreamCount[..]) == Count(run.results, IsSuccess)
  {
    ghost var c, earlier := resolver.current, resolver.stats.samples;
    run := ResolveEach(resolver, queries);
    StartsAreShared(c, |queries|, |resolver.upstreams|);
    RunIsCounted(run, queries, resolver.stats.LatencyView(), earlier, resolver.stats.samples, resolver.upstreams);
  }

  method ResolveEach(resolver: RoundRobinResolver, queries: seq<seq<Reply>>)
    returns (run: CallRun)
    requires resolver.upstreams != [] && resolver.stats.Valid() && resolver.stats.Accounted()
    requires forall q :: q in queries ==> |q| == |resolver.upstreams|
    modifies resolver`current, resolver.stats`samples, resolver.stats.upstreamTotalMs, resolver.stats.upstreamCount
    ensures resolver.stats.Valid() && resolver.stats.Accounted()
    ensures resolver.current == Wrap(old(resolver.current) + |queries|)
    ensures run.starts == Starts(old(resolver.current), |queries|, |resolver.upstreams|)
    ensures old(resolver.stats.samples) <= resolver.stats.samples
    ensures IsRunOf(run, queries, resolver.stats.samples[|old(resolver.stats.samples)|..], resolver.upstreams)
  {
    ghost var n, c, earlier := |resolver.upstreams|, resolver.current, resolver.stats.samples;
    run := CallRun([], [], []);
    SmallWrap(c);
    for i := 0 to |queries|
      invariant resolver.stats.Valid() && resolver.stats.Accounted()
      invariant resolver.current == Wrap(c + i) && run.starts == Starts(c, i, n)
      invariant earlier <= resolver.stats.samples
      invariant IsRunOf(run, queries[..i], resolver.stats.samples[|earlier|..], resolver.upstreams)
    {
      assert queries[i] in queries && queries[..i + 1] == queries[..i] + [queries[i]];
      run := ResolveNext(resolver, queries[i], run, queries[..i], earlier, c, i);
    }
    assert queries[..|queries|] == queries;
  }

  lemma StartsGrow(c: nat, i: nat, n: nat)
    requires n > 0
    ensures Starts(c, i + 1, n) == Starts(c, i, n) + [Wrap(c + i) % n]
  {}

  lemma RunIsCounted(run: CallRun, queries: seq<seq<Reply>>, l: Latency, earlier: seq<Sample>, samples: seq<Sample>,
                     upstreams: seq<Upstream>)
    requires earlier <= samples && IsRunOf(run, queries, samples[|earlier|..], upstreams) && Accounts(l, samples)
    ensures earlier == [] && |upstreams| <= TRACKED && |queries| < U64 ==> Sum(l.count) == Count(run.results, IsSuccess)
  {
    if earlier == [] && |upstreams| <= TRACKED && |queries| < U64 {
      assert samples[0..] == samples;
      LatencyCountsSuccesses(l, samples, run.calls, upstreams);
    }
  }

  /** Started at by calls from counter value c on, each of n upstreams has its fair share, unless the counter wraps
      and n does not divide 2^64. */
  ghost predicate SharedFairly(starts: seq<nat>, c: u64, n: nat)
    requires n > 0
  {
    c + |starts| <= U64 || U64 % n == 0 ==> forall k: nat :: k < n ==> FairShare(starts, n, k)
  }

  lemma StartsAreShared(c: u64, m: nat, n: nat)
    requires n > 0
    ensures SharedFairly(Starts(c, m, n), c, n)
  {
    if c + m <= U64 || U64 % n == 0 {
      forall k: nat | k < n ensures FairShare(Starts(c, m, n), n, k) {
        if c + m <= U64 { FairUntilWrap(c, m, n, k); } else { FairWhenDivides(c, m, n, k); }
      }
    }
  }

  class ParallelResolver {
    const upstreams: seq<Upstream>
    const stats: StatsCollector

    constructor (upstreams: seq<Upstream>, stats: StatsCollector)
      ensures this.upstreams == upstreams && this.stats == stats
    {
      this.upstreams, this.stats := upstreams, stats;
    }

    /** The lookups race; `completion` is the order in which they finish. */
    method Resolve(replies: seq<Reply>, completion: seq<nat>) returns (r: Resolution)
      requires |replies| == |upstreams| && stats.Valid() && stats.Accounted()
      requires IsPermutation(completion, |upstreams|)
      modifies stats`samples, stats.upstreamTotalMs, stats.upstreamCount
      ensures stats.Valid() && stats.Accounted() && old(stats.samples) <= stats.samples
      ensures Follows(upstreams, replies, completion, r, stats.samples[|old(stats.samples)|..])
    {
      var futures: seq<nat> := [];
      for idx := 0 to |upstreams|
        invariant futures == Identity(idx)
      {
        futures := futures + [idx];
      }
      PermutationsShareElements(futures, completion, |upstreams|);
      var k := 0;  // how many lookups have finished
      while futures != []
        invariant stats.Valid() && stats.Accounted() && stats.samples == old(stats.samples)
        invariant Pending(futures, completion, k)
        invariant forall i :: 0 <= i < k ==> !Answers(replies[completion[i]])
        decreases |futures|
      {
        NextIsPending(futures, completion, k);
        var idx, remaining := SelectAll(futures, completion[k]);
        OthersStayPending(futures, remaining, completion, k);
        futures := remaining;
        r := HandleLookupResult(replies[idx], stats, idx, upstreams[idx].url);
        if r.Resolved? {
          FirstAnswerIs(replies, completion, k);
          return;
        }
        k := k + 1;
      }
      r := Failed("All upstreams failed");
    }

    /** `select_all`: the next lookup to finish, and the others with the last one moved into its place. */
    method SelectAll(futures: seq<nat>, next: nat) returns (idx: nat, remaining: seq<nat>)
      requires next in futures
      ensures idx == next && |remaining| == |futures| - 1
      ensures multiset(futures) == multiset(remaining) + multiset{next}
    {
      var j :| 0 <= j < |futures| && futures[j] == next;
      var n := |futures| - 1;
      idx := futures[j];
      remaining := futures[j := futures[n]][..n];
      assert futures == futures[..n] + [futures[n]];
      assert futures[j := futures[n]] == remaining + [futures[n]];
    }
  }

  /** The lookups that have not finished after k have. */
  ghost predicate Pending(futures: seq<nat>, completion: seq<nat>, k: nat) {
    k <= |completion| && |futures| == |completion| - k && multiset(futures) == multiset(completion[k..])
  }

  lemma NextIsPending(futures: seq<nat>, completion: seq<nat>, k: nat)
    requires k < |completion| && Pending(futures, completion, k)
    ensures completion[k] in futures
  {
    assert completion[k..][0] == completion[k];
    assert completion[k] in multiset(futures);
  }

  lemma OthersStayPending(futures: seq<nat>, remaining: seq<nat>, completion: seq<nat>, k: nat)
    requires k < |completion| && Pending(futures, completion, k) && |remaining| == |futures| - 1
    requires multiset(futures) == multiset(remaining) + multiset{completion[k]}
    ensures Pending(remaining, completion, k + 1)
  {
    var next: seq<nat>, rest: seq<nat> := [completion[k]], completion[k + 1..];
    assert completion[k..] == next + rest;
    assert multiset(next + rest) == multiset(next) + multiset(rest);
    assert multiset(remaining) == multiset(futures) - multiset(next);
  }

  lemma {:induction false} DistinctMultiset(s: seq<nat>, k: nat)
    requires Distinct(s)
    ensures multiset(s)[k] == if k in s then 1 else 0
  {
    if s != [] {
      var n := |s| - 1;
      DistinctMultiset(s[..n], k);
      assert s == s[..n] + [s[n]];
    }
  }

  lemma PermutationsShareElements(a: seq<nat>, b: seq<nat>, n: nat)
    requires IsPermutation(a, n) && IsPermutation(b, n)
    ensures multiset(a) == multiset(b)
  {
    forall k: nat ensures multiset(a)[k] == multiset(b)[k] {
      DistinctMultiset(a, k);
      DistinctMultiset(b, k);
      if k < n {
        PermutationHits(a, n, k);
        PermutationHits(b, n, k);
      }
    }
  }

  // ----- agreement of the policies ---------------------------------------------------------

  /** In whatever order the upstreams are considered: success exactly when some upstream answers, and
      a success is one upstream's own answer with its own url. */
  lemma {:induction false} SuccessIffSomeAnswer(upstreams: seq<Upstream>, replies: seq<Reply>, order: seq<nat>,
                             r: Resolution, samples: seq<Sample>)
    requires |replies| == |upstreams| && IsPermutation(order, |upstreams|)
    requires Follows(upstreams, replies, order, r, samples)
    ensures r.Resolved? <==> exists i :: 0 <= i < |replies| && Answers(replies[i])
    ensures r.Resolved? ==> exists i :: 0 <= i < |replies| && Answers(replies[i]) &&
                                        r == Resolved(AnswerOf(replies[i].lookup).value, upstreams[i].url) &&
                                        samples == [Sample(i, replies[i].elapsedMs)]
    ensures r.Failed? ==> samples == []
  {
    forall i: nat | i < |replies| && Answers(replies[i]) ensures r.Resolved? {
      PermutationHits(order, |upstreams|, i);
    }
  }

  /** Two policies (or two runs of one) on the same outcomes agree on success; on one upstream they
      agree on the whole answer. */
  lemma {:induction false} PoliciesAgree(upstreams: seq<Upstream>, replies: seq<Reply>, o: seq<nat>, o': seq<nat>,
                      r: Resolution, r': Resolution, s: seq<Sample>, s': seq<Sample>)
    requires |replies| == |upstreams| && IsPermutation(o, |upstreams|) && IsPermutation(o', |upstreams|)
    requires Follows(upstreams, replies, o, r, s) && Follows(upstreams, replies, o', r', s')
    ensures r.Resolved? <==> r'.Resolved?
    ensures |upstreams| == 1 && r.Resolved? ==> r == r' && s == s'
  {
    SuccessIffSomeAnswer(upstreams, replies, o, r, s);
    SuccessIffSomeAnswer(upstreams, replies, o', r', s');
  }

  /** Some order makes upstream i's answer the result. */
  lemma AnyAnswerCanWin(upstreams: seq<Upstream>, replies: seq<Reply>, i: nat)
    requires |replies| == |upstreams| && i < |replies| && Answers(replies[i])
    ensures IsPermutation(Rotation(i, |upstreams|), |upstreams|)
    ensures Follows(upstreams, replies, Rotation(i, |upstreams|),
                    Resolved(AnswerOf(replies[i].lookup).value, upstreams[i].url), [Sample(i, replies[i].elapsedMs)])
  {
    RotationIsPermutation(i, |upstreams|);
    ModUnique(0, |upstreams|, i);
    assert Rotation(i, |upstreams|)[0] == i;
    FirstAnswerIs(replies, Rotation(i, |upstreams|), 0);
  }

  /** r can be the result under some order. */
  ghost predicate Possible(upstreams: seq<Upstream>, replies: seq<Reply>, r: Resolution)
    requires |replies| == |upstreams|
  {
    exists o, s :: IsPermutation(o, |upstreams|) && Follows(upstreams, replies, o, r, s)
  }

  lemma PossibleAnswers(upstreams: seq<Upstream>, replies: seq<Reply>, r: Resolution)
    requires |replies| == |upstreams| && r.Resolved?
    ensures Possible(upstreams, replies, r) <==>
            exists i :: 0 <= i < |replies| && Answers(replies[i]) &&
                        r == Resolved(AnswerOf(replies[i].lookup).value, upstreams[i].url)
  {
    if Possible(upstreams, replies, r) {
      var o, s :| IsPermutation(o, |upstreams|) && Follows(upstreams, replies, o, r, s);
      SuccessIffSomeAnswer(upstreams, replies, o, r, s);
    }
    forall i | 0 <= i < |replies| && Answers(replies[i]) &&
               r == Resolved(AnswerOf(replies[i].lookup).value, upstreams[i].url)
      ensures Possible(upstreams, replies, r)
    {
      AnyAnswerCanWin(upstreams, replies, i);
    }
  }

  /** The answer itself is independent of the order exactly when the answering upstreams all say
      the same under the same url. */
  lemma AnswerIsOrderIndependentIff(upstreams: seq<Upstream>, replies: seq<Reply>)
    requires |replies| == |upstreams|
    ensures (forall r: Resolution, r': Resolution ::
               r.Resolved? && r'.Resolved? && Possible(upstreams, replies, r) && Possible(upstreams, replies, r') ==>
                 r == r')
            <==>
            (forall i, j :: 0 <= i < |replies| && 0 <= j < |replies| && Answers(replies[i]) && Answers(replies[j]) ==>
                              AnswerOf(replies[i].lookup) == AnswerOf(replies[j].lookup) &&
                              upstreams[i] == upstreams[j])
  {
    forall r: Resolution | r.Resolved?
      ensures Possible(upstreams, replies, r) <==>
              exists i :: 0 <= i < |replies| && Answers(replies[i]) &&
                          r == Resolved(AnswerOf(replies[i].lookup).value, upstreams[i].url)
    {
      PossibleAnswers(upstreams, replies, r);
    }
    if i, j :| 0 <= i < |replies| && 0 <= j < |replies| && Answers(replies[i]) && Answers(replies[j]) &&
               !(AnswerOf(replies[i].lookup) == AnswerOf(replies[j].lookup) && upstreams[i] == upstreams[j]) {
      var r := Resolved(AnswerOf(replies[i].lookup).value, upstreams[i].url);
      var r' := Resolved(AnswerOf(replies[j].lookup).value, upstreams[j].url);
      assert Possible(upstreams, replies, r) && Possible(upstreams, replies, r') && r != r';
    }
  }

  // ----- choosing a policy -------------------------------------------------------------------

  datatype Policy = Single | Sequential | RoundRobin | Parallel

  /** `create_resolver` after the upstreams are built; no upstream is an error. */
  function ChoosePolicy(n: nat, name: string): Option<Policy> {
    if n == 0 then None
    else if n == 1 then Some(Single)
    else if name == "sequential" then Some(Sequential)
    else if name == "round-robin" then Some(RoundRobin)
    else Some(Parallel)
  }

  /** The orders a policy may consider n upstreams in. */
  ghost predicate MayUse(p: Policy, n: nat, order: seq<nat>) {
    match p
    case Single => n == 1 && order == [0]
    case Sequential => order == Identity(n)
    case RoundRobin => n > 0 && exists c: u64 :: order == Rotation(c % n, n)
    case Parallel => IsPermutation(order, n)
  }

  /** What a configured name means: the orders in which n upstreams may be considered. */
  lemma {:induction false} ConfiguredOrders(n: nat, name: string, order: seq<nat>)
    ensures ChoosePolicy(n, name) == None <==> n == 0
    ensures n == 1 ==> (MayUse(ChoosePolicy(n, name).value, n, order) <==> order == [0])
    ensures n > 1 && name == "sequential" ==>
              (MayUse(ChoosePolicy(n, name).value, n, order) <==>
               |order| == n && forall i :: 0 <= i < n ==> order[i] == i)
    ensures n > 1 && name == "round-robin" ==>
              (MayUse(ChoosePolicy(n, name).value, n, order) <==>
               exists c: u64 :: GoesRound(order, c % n, n))
    ensures n > 1 && name != "sequential" && name != "round-robin" ==>
              (MayUse(ChoosePolicy(n, name).value, n, order) <==> IsPermutation(order, n))
  {
    if n > 1 && name == "sequential" {
      if |order| == n && forall i :: 0 <= i < n ==> order[i] == i { assert order == Identity(n); }
    } else if n > 1 && name == "round-robin" {
      forall c: u64 ensures order == Rotation(c % n, n) <==> GoesRound(order, c % n, n) {
        RotationIs(c % n, n, order);
      }
    }
  }

  /** All n, one after the other from start on. */
  predicate GoesRound(order: seq<nat>, start: nat, n: nat)
    requires n > 0
  {
    |order| == n && forall i :: 0 <= i < n ==> order[i] == (start + i) % n
  }

  lemma RotationIs(start: nat, n: nat, order: seq<nat>)
    requires n > 0
    ensures order == Rotation(start, n) <==> GoesRound(order, start, n)
  {}

  datatype DnsResolver =
    | OfSingle(single: SingleResolver)
    | OfSequential(sequential: SequentialResolver)
    | OfRoundRobin(roundRobin: RoundRobinResolver)
    | OfParallel(parallel: ParallelResolver)

  /** `create_resolver` after the upstreams are built. */
  method CreateResolver(upstreams: seq<Upstream>, name: string, stats: StatsCollector) returns (r: Option<DnsResolver>)
    ensures r.None? <==> upstreams == []
    ensures |upstreams| == 1 ==>
              r.value.OfSingle? && r.value.single.upstream == upstreams[0] && r.value.single.stats == stats
    ensures |upstreams| > 1 && name == "sequential" ==>
              && r.value.OfSequential? && r.value.sequential.upstreams == upstreams
              && r.value.sequential.stats == stats
    ensures |upstreams| > 1 && name == "round-robin" ==>
              && r.value.OfRoundRobin? && r.value.roundRobin.upstreams == upstreams
              && r.value.roundRobin.stats == stats && r.value.roundRobin.current == 0
    ensures |upstreams| > 1 && name != "sequential" && name != "round-robin" ==>
              r.value.OfParallel? && r.value.parallel.upstreams == upstreams && r.value.parallel.stats == stats
    ensures r.Some? ==> PolicyOf(r.value) == ChoosePolicy(|upstreams|, name).value
  {
    if upstreams == [] {
      return None;
    }
    if |upstreams| == 1 {
      var single := new SingleResolver(upstreams[0], stats);
      return Some(OfSingle(single));
    }
    if name == "sequential" {
      var sequential := new SequentialResolver(upstreams, stats);
      r := Some(OfSequential(sequential));
    } else if name == "round-robin" {
      var roundRobin := new RoundRobinResolver(upstreams, stats);
      r := Some(OfRoundRobin(roundRobin));
    } else {
      var parallel := new ParallelResolver(upstreams, stats);
      r := Some(OfParallel(parallel));
    }
  }

  function PolicyOf(r: DnsResolver): Policy {
    match r
    case OfSingle(_) => Single
    case OfSequential(_) => Sequential
    case OfRoundRobin(_) => RoundRobin
    case OfParallel(_) => Parallel
  }

  /** Whatever two policy names are configured, the same outcomes succeed. */
  lemma {:induction false} ConfiguredPolicyNeverDecidesSuccess(
    upstreams: seq<Upstream>, replies: seq<Reply>, name: string, name': string, o: seq<nat>, o': seq<nat>,
    r: Resolution, r': Resolution, s: seq<Sample>, s': seq<Sample>)
    requires |replies| == |upstreams| > 0
    requires MayUse(ChoosePolicy(|upstreams|, name).value, |upstreams|, o)
    requires MayUse(ChoosePolicy(|upstreams|, name').value, |upstreams|, o')
    ensures IsPermutation(o, |upstreams|) && IsPermutation(o', |upstreams|)
    ensures Follows(upstreams, replies, o, r, s) && Follows(upstreams, replies, o', r', s') ==>
              (r.Resolved? <==> r'.Resolved?) && (|upstreams| == 1 && r.Resolved? ==> r == r')
  {
    MayUseIsPermutation(ChoosePolicy(|upstreams|, name).value, |upstreams|, o);
    MayUseIsPermutation(ChoosePolicy(|upstreams|, name').value, |upstreams|, o');
    if Follows(upstreams, replies, o, r, s) && Follows(upstreams, replies, o', r', s') {
      PoliciesAgree(upstreams, replies, o, o', r, r', s, s');
    }
  }

  lemma MayUseIsPermutation(p: Policy, n: nat, order: seq<nat>)
    requires MayUse(p, n, order)
    ensures IsPermutation(order, n)
  {
    if p == RoundRobin {
      var c: u64 :| order == Rotation(c % n, n);
      RotationIsPermutation(c % n, n);
    }
  }

  // ----- round-robin fairness ------------------------------------------------------------------

  /** Where m consecutive calls start, from counter value c on. */
  function Starts(c: nat, m: nat, n: nat): seq<nat>
    requires n > 0
  {
    seq(m, i requires 0 <= i < m => Wrap(c + i) % n)
  }

  function CeilDiv(m: nat, n: nat): nat
    requires n > 0
  {
    (m + n - 1) / n
  }

  /** Index k starts floor(m/n) or ceil(m/n) of m calls. */
  predicate FairShare(starts: seq<nat>, n: nat, k: nat)
    requires n > 0
  {
    |starts| / n <= Count(starts, Is(k)) <= CeilDiv(|starts|, n)
  }

  lemma SharesBelowOneRound(m: nat, n: nat)
    requires m < n
    ensures m / n == 0 && CeilDiv(m, n) == if m == 0 then 0 else 1
  {
    ModUnique(0, n, m);
    if m > 0 {
      ModUnique(1, n, m - 1);
    } else {
      ModUnique(0, n, n - 1);
    }
  }

  lemma DivStep(m: nat, n: nat)
    requires n > 0
    ensures (m + n) / n == m / n + 1
  {
    assert m + n == (m / n + 1) * n + m % n;
    ModUnique(m / n + 1, n, m % n);
  }

  lemma SharesGrowByOne(m: nat, n: nat)
    requires n > 0
    ensures (m + n) / n == m / n + 1 && CeilDiv(m + n, n) == CeilDiv(m, n) + 1
  {
    DivStep(m, n);
    DivStep(m + n - 1, n);
  }

  /** Consecutive residues, m of them from a on. */
  function Residues(a: nat, m: nat, n: nat): seq<nat>
    requires n > 0
  {
    seq(m, i requires 0 <= i < m => (a + i) % n)
  }

  lemma ShortRunCounts(a: nat, m: nat, n: nat, k: nat)
    requires m <= n && n > 0 && k < n
    ensures Count(Residues(a, m, n), Is(k)) <= 1
    ensures m == n ==> Count(Residues(a, m, n), Is(k)) == 1
    ensures m == 0 ==> Count(Residues(a, m, n), Is(k)) == 0
  {
    var s := Residues(a, m, n);
    forall i, j | 0 <= i < j < m ensures s[i] != s[j] { ResiduesDiffer(a, i, j, n); }
    DistinctCountsOnce(s, k);
    if m == n {
      assert s == Rotation(a, n);
      PermutationHits(s, n, k);
    }
  }

  lemma {:induction false} ResiduesAreFair(a: nat, m: nat, n: nat, k: nat)
    requires k < n
    ensures FairShare(Residues(a, m, n), n, k)
    decreases m
  {
    if m < n {
      ShortRunCounts(a, m, n, k);
      SharesBelowOneRound(m, n);
    } else {
      var h := m - n;
      ResiduesAreFair(a, h, n, k);
      assert Residues(a, m, n) == Residues(a, h, n) + Residues(a + h, n, n);
      CountConcat(Residues(a, h, n), Residues(a + h, n, n), Is(k));
      ShortRunCounts(a + h, n, n, k);
      SharesGrowByOne(h, n);
    }
  }

  /** While the counter does not wrap, every window of calls is shared out fairly. */
  lemma {:induction false} FairUntilWrap(c: u64, m: nat, n: nat, k: nat)
    requires k < n && c + m <= U64
    ensures FairShare(Starts(c, m, n), n, k)
  {
    forall i | 0 <= i < m ensures Starts(c, m, n)[i] == Residues(c, m, n)[i] { SmallWrap(c + i); }
    assert Starts(c, m, n) == Residues(c, m, n);
    ResiduesAreFair(c, m, n, k);
  }

  lemma WrapKeepsResidue(x: nat, n: nat)
    requires n > 0 && U64 % n == 0
    ensures Wrap(x) % n == x % n
  {
    var q, w, t := x / U64, x % U64, U64 / n;
    assert U64 == t * n;
    assert x == q * U64 + w == (q * t) * n + w by {
      assert q * (t * n) == (q * t) * n;
    }
    var p := w / n;
    assert x == (q * t) * n + (p * n + w % n) == (q * t + p) * n + w % n;
    assert q * t >= 0;
    ModUnique(q * t + p, n, w % n);
  }

  lemma FairWhenDivides(c: u64, m: nat, n: nat, k: nat)
    requires k < n && U64 % n == 0
    ensures FairShare(Starts(c, m, n), n, k)
  {
    forall i | 0 <= i < m ensures Starts(c, m, n)[i] == Residues(c, m, n)[i] { WrapKeepsResidue(c + i, n); }
    assert Starts(c, m, n) == Residues(c, m, n);
    ResiduesAreFair(c, m, n, k);
  }

  /** Round-robin is fair over every window of calls, the counter's wrap included, exactly when the
      number of upstreams divides 2^64. */
  lemma FairForeverIffDivides(n: nat)
    requires n > 0
    ensures (forall c: u64, m: nat, k: nat :: k < n ==> FairShare(Starts(c, m, n), n, k)) <==> U64 % n == 0
  {
    if U64 % n == 0 {
      forall c: u64, m: nat, k: nat | k < n ensures FairShare(Starts(c, m, n), n, k) {
        FairWhenDivides(c, m, n, k);
      }
    } else {
      RemainderDrops(U64, n);
      UnfairAcrossWrap(U64 % n, n);
    }
  }

  lemma RemainderDrops(w: nat, n: nat)
    requires n > 0
    ensures w % n <= w && (w - w % n) % n == 0
  {
    assert w - w % n == (w / n) * n;
    ModUnique(w / n, n, 0);
  }

  lemma ZeroModulo(n: nat)
    requires n > 0
    ensures 0 % n == 0
  {}

  lemma TwiceCounted(s: seq<nat>, r: nat, k: nat)
    requires |s| == r + 1 && r > 0 && s[0] == k && s[r] == k
    ensures Count(s, Is(k)) >= 2
  {
    CountWitness(s[..r], Is(k), 0);
  }

  lemma CeilOfPartRound(r: nat, n: nat)
    requires 0 < r < n
    ensures CeilDiv(r + 1, n) == 1
  {
    ModUnique(1, n, r);
  }

  lemma StartsAroundWrap(r: nat, n: nat)
    requires 0 < r < n && r <= U64 && (U64 - r) % n == 0
    ensures Starts(U64 - r, r + 1, n)[0] == 0 && Starts(U64 - r, r + 1, n)[r] == 0
  {
    SmallWrap(U64 - r);
    ZeroModulo(n);
    assert Wrap(U64) == 0;
  }

  /** The window that ends with the first call after the wrap starts twice at upstream 0. */
  lemma {:induction false} UnfairAcrossWrap(r: nat, n: nat)
    requires 0 < r < n && r <= U64 && (U64 - r) % n == 0
    ensures !FairShare(Starts(U64 - r, r + 1, n), n, 0)
  {
    StartsAroundWrap(r, n);
    TwiceCounted(Starts(U64 - r, r + 1, n), r, 0);
    CeilOfPartRound(r, n);
  }

  // ----- latency accounting over runs --------------------------------------------------------

  datatype Call = Call(replies: seq<Reply>, order: seq<nat>)

  ghost predicate WellFormed(c: Call, n: nat) { |c.replies| == n && IsPermutation(c.order, n) }

  predicate Succeeds(c: Call) { exists i :: 0 <= i < |c.replies| && Answers(c.replies[i]) }

  /** samples is what these calls, in this order, add to the latency record. */
  ghost predicate SampledBy(samples: seq<Sample>, calls: seq<Call>, upstreams: seq<Upstream>)
    decreases |calls|
  {
    if calls == [] then samples == []
    else
      var last := calls[|calls| - 1];
      && WellFormed(last, |upstreams|)
      && exists r, cut: nat :: cut <= |samples| && SampledBy(samples[..cut], calls[..|calls| - 1], upstreams) &&
                            Follows(upstreams, last.replies, last.order, r, samples[cut..])
  }

  lemma SampledByAppend(earlier: seq<Sample>, before: seq<Sample>, after: seq<Sample>, calls: seq<Call>, call: Call,
                        upstreams: seq<Upstream>, r: Resolution)
    requires earlier <= before <= after && SampledBy(before[|earlier|..], calls, upstreams)
    requires WellFormed(call, |upstreams|) && Follows(upstreams, call.replies, call.order, r, after[|before|..])
    ensures SampledBy(after[|earlier|..], calls + [call], upstreams)
  {
    var samples, cut: nat := after[|earlier|..], |before| - |earlier|;
    assert samples[..cut] == before[|earlier|..] && samples[cut..] == after[|before|..];
    assert (calls + [call])[..|calls|] == calls;
  }

  lemma SuccessAppend(results: seq<Resolution>, calls: seq<Call>, call: Call, upstreams: seq<Upstream>, r: Resolution,
                      samples: seq<Sample>)
    requires Count(results, IsSuccess) == Count(calls, Succeeds) && WellFormed(call, |upstreams|)
    requires Follows(upstreams, call.replies, call.order, r, samples)
    ensures Count(results + [r], IsSuccess) == Count(calls + [call], Succeeds)
  {
    SuccessIffSomeAnswer(upstreams, call.replies, call.order, r, samples);
    CountAppend(results, r, IsSuccess);
    CountAppend(calls, call, Succeeds);
  }

  lemma {:induction false} SamplesPerSuccess(samples: seq<Sample>, calls: seq<Call>, upstreams: seq<Upstream>)
    requires SampledBy(samples, calls, upstreams)
    ensures |samples| == Count(calls, Succeeds)
    ensures forall x :: x in samples ==> x.upstream < |upstreams|
    decreases |calls|
  {
    if calls != [] {
      var last := calls[|calls| - 1];
      var r, cut: nat :| cut <= |samples| && SampledBy(samples[..cut], calls[..|calls| - 1], upstreams) &&
                         Follows(upstreams, last.replies, last.order, r, samples[cut..]);
      SamplesPerSuccess(samples[..cut], calls[..|calls| - 1], upstreams);
      SuccessIffSomeAnswer(upstreams, last.replies, last.order, r, samples[cut..]);
      assert samples == samples[..cut] + samples[cut..];
    }
  }

  /** Over any run of calls under any policy, with at most 16 upstreams the latency counts add up to the
      successful calls; failures and race losers add nothing. */
  lemma {:induction false} LatencyCountsSuccesses(l: Latency, samples: seq<Sample>, calls: seq<Call>,
                                                  upstreams: seq<Upstream>)
    requires SampledBy(samples, calls, upstreams) && Accounts(l, samples)
    requires |upstreams| <= TRACKED && |calls| < U64
    ensures Sum(l.count) == Count(calls, Succeeds)
  {
    SamplesPerSuccess(samples, calls, upstreams);
    CountBound(calls, Succeeds);
    CountsSumToSamples(l, samples);
  }

  // ----- which name an answering upstream is reported under ------------------------------------

  /** The upstreams that could be built, in configured order. */
  function BuiltFrom(urls: seq<string>, usable: seq<bool>): seq<string>
    requires |urls| == |usable|
  {
    if urls == [] then []
    else (if usable[0] then [urls[0]] else []) + BuiltFrom(urls[1..], usable[1..])
  }

  method CreateConfiguredUpstreams(urls: seq<string>, usable: seq<bool>) returns (built: seq<string>)
    requires |urls| == |usable|
    ensures built == BuiltFrom(urls, usable)
  {
    built := [];
    for idx := 0 to |urls|
      invariant built + BuiltFrom(urls[idx..], usable[idx..]) == BuiltFrom(urls, usable)
    {
      assert urls[idx..][1..] == urls[idx + 1..] && usable[idx..][1..] == usable[idx + 1..];
      if usable[idx] {
        assert built + ([urls[idx]] + BuiltFrom(urls[idx + 1..], usable[idx + 1..])) ==
               (built + [urls[idx]]) + BuiltFrom(urls[idx + 1..], usable[idx + 1..]);
        built := built + [urls[idx]];
      }
    }
  }

  lemma {:induction false} BuiltMembers(urls: seq<string>, usable: seq<bool>)
    requires |urls| == |usable|
    ensures forall u :: u in BuiltFrom(urls, usable) ==> u in urls
    ensures |BuiltFrom(urls, usable)| <= |urls|
    ensures BuiltFrom(urls, usable) == [] <==> forall i :: 0 <= i < |usable| ==> !usable[i]
  {
    if urls != [] { BuiltMembers(urls[1..], usable[1..]); }
  }

  function FirstOf(s: seq<string>, n: nat): seq<string> { if n < |s| then s[..n] else s }

  /** Latencies are kept and reported for the first 16 built upstreams (n, below) but under the configured name at
      the same index. For distinct urls every reported label is right exactly when no unusable upstream among the
      first n configured precedes a usable one. */
  lemma {:induction false} LabelsAreRightIff(urls: seq<string>, usable: seq<bool>, n: nat)
    requires |urls| == |usable| && Distinct(urls)
    ensures FirstOf(BuiltFrom(urls, usable), n) <= urls <==> NoGapBefore(usable, n)
  {
    if urls != [] && n > 0 {
      if usable[0] {
        LabelsAreRightIff(urls[1..], usable[1..], n - 1);
        var built := BuiltFrom(urls[1..], usable[1..]);
        assert FirstOf([urls[0]] + built, n) == [urls[0]] + FirstOf(built, n - 1);
        assert urls == [urls[0]] + urls[1..];
        PrefixUnderHead(urls[0], FirstOf(built, n - 1), urls[1..]);
        ConditionUnderHead(usable, n);
      } else {
        GapAtHead(urls, usable, n);
      }
    }
  }

  /** No unusable upstream among the first n precedes a usable one. */
  ghost predicate NoGapBefore(usable: seq<bool>, n: nat) {
    forall i, j :: 0 <= i < j < |usable| && i < n && usable[j] ==> usable[i]
  }

  lemma GapAtHead(urls: seq<string>, usable: seq<bool>, n: nat)
    requires |urls| == |usable| && Distinct(urls) && urls != [] && n > 0 && !usable[0]
    ensures FirstOf(BuiltFrom(urls, usable), n) <= urls <==> NoGapBefore(usable, n)
  {
    var built := BuiltFrom(urls[1..], usable[1..]);
    BuiltMembers(urls[1..], usable[1..]);
    if built != [] {
      var j :| 0 <= j < |usable[1..]| && usable[1..][j];
      assert usable[j + 1];
      assert FirstOf(built, n)[0] == built[0] && built[0] in urls[1..];
    } else {
      assert forall j :: 0 < j < |usable| ==> usable[j] == usable[1..][j - 1];
    }
  }

  lemma PrefixUnderHead(h: string, a: seq<string>, b: seq<string>)
    ensures [h] + a <= [h] + b <==> a <= b
  {
    assert ([h] + a)[1..] == a && ([h] + b)[1..] == b;
  }

  lemma ConditionUnderHead(usable: seq<bool>, n: nat)
    requires usable != [] && usable[0] && n > 0
    ensures NoGapBefore(usable[1..], n - 1) <==> NoGapBefore(usable, n)
  {
    forall i, j | 0 <= i < j < |usable[1..]| && i < n - 1 && usable[1..][j] && !usable[1..][i]
      ensures usable[j + 1] && !usable[i + 1]
    {}
  }

  const DEFAULT_URL := "h3://dns.google/dns-query"

  /** The upstreams that `create_resolver` ends up with: without any configured, the default one. */
  function Built(urls: seq<string>, usable: seq<bool>, defaultUsable: bool): seq<string>
    requires |urls| == |usable|
  {
    if urls == [] then (if defaultUsable then [DEFAULT_URL] else []) else BuiltFrom(urls, usable)
  }

  method CreateUpstreams(urls: seq<string>, usable: seq<bool>, defaultUsable: bool) returns (built: seq<string>)
    requires |urls| == |usable|
    ensures built == Built(urls, usable, defaultUsable)
  {
    if urls == [] {
      built := [];
      if defaultUsable { built := built + [DEFAULT_URL]; }
    } else {
      built := CreateConfiguredUpstreams(urls, usable);
    }
  }

  /** Every label that the dump can print, for the tracked indices, is the upstream's own url exactly when upstreams
      are configured and none of the first 16 that is unusable precedes a usable one, or when there is no upstream at
      all: the default upstream is always printed as "Unknown". */
  lemma DumpedLabelsAreRightIff(urls: seq<string>, usable: seq<bool>, defaultUsable: bool)
    requires |urls| == |usable| && Distinct(urls)
    ensures var built := Built(urls, usable, defaultUsable);
            (forall k: nat :: k < TRACKED && k < |built| ==> PrintedLabel(urls, k) == built[k])
            <==> (if urls == [] then !defaultUsable else NoGapBefore(usable, TRACKED))
  {
    if urls == [] {
      assert PrintedLabel(urls, 0) != DEFAULT_URL by { assert |"Unknown"| != |DEFAULT_URL|; }
      if defaultUsable { assert Built(urls, usable, defaultUsable)[0] == DEFAULT_URL; }
    } else {
      LabelsAreRightIff(urls, usable, TRACKED);
      BuiltMembers(urls, usable);
      var built := BuiltFrom(urls, usable);
      var shown := FirstOf(built, TRACKED);
      assert |shown| == Min(TRACKED, |built|) && forall k :: 0 <= k < |shown| ==> shown[k] == built[k];
      assert forall k: nat :: k < |shown| ==> PrintedLabel(urls, k) == urls[k];
      assert shown <= urls <==> forall k: nat :: k < |shown| ==> urls[k] == shown[k];
    }
  }
}
