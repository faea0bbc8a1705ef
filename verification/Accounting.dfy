/** Counting: every counter against a recount of the requests, and the fates that partition them, over every
    interleaving. */
module Accounting {
  import opened Prelude
  import opened Dns
  import opened HandlerModel
  import Stats

  // ----- which counter updates a request has completed -------------------------------------

  /** How many of its two query counts a request has made. */
  function QueryStage(p: Phase): nat {
    match p
    case CountClient => 0
    case CountDomain => 1
    case _ => 2
  }

  /** Where a request is in the four block counts: 0 is not being sunk, 5 is all made. */
  function SinkStage(p: Phase): nat {
    match p
    case CountBlocked(_) => 1
    case CountSource(_) => 2
    case CountClientBlock(_) => 3
    case CountDomainBlock(_) => 4
    case Send(o) => if o.Sunk? then 5 else 0
    case Log(o) => if o.Sunk? then 5 else 0
    case Done(o) => if o.Sunk? then 5 else 0
    case _ => 0
  }

  /** The list a request is sunk for. */
  function SinkSource(p: Phase): nat {
    match p
    case CountBlocked(source) => source
    case CountSource(source) => source
    case CountClientBlock(source) => source
    case CountDomainBlock(source) => source
    case Send(o) => if o.Sunk? then o.source else 0
    case Log(o) => if o.Sunk? then o.source else 0
    case Done(o) => if o.Sunk? then o.source else 0
    case _ => 0
  }

  /** 0 is no cache hit, 1 is a hit about to be counted, 2 is counted. */
  function HitStage(p: Phase): nat {
    match p
    case CountHit(_) => 1
    case Spawn(_) => 2
    case Send(o) => if o.FromCache? then 2 else 0
    case Log(o) => if o.FromCache? then 2 else 0
    case Done(o) => if o.FromCache? then 2 else 0
    case _ => 0
  }

  function ClientCounted(r: Req): Option<string> { if QueryStage(r.phase) >= 1 then Some(r.client) else None }

  function DomainCounted(r: Req): Option<string> { if QueryStage(r.phase) >= 2 then Some(r.name) else None }

  predicate BlockCounted(r: Req) { SinkStage(r.phase) >= 2 }

  function SourceCounted(r: Req): Option<nat> {
    if SinkStage(r.phase) >= 3 then Some(SinkSource(r.phase)) else None
  }

  function ClientBlockCounted(r: Req): Option<string> {
    if SinkStage(r.phase) >= 4 then Some(r.client) else None
  }

  function DomainBlockCounted(r: Req): Option<string> {
    if SinkStage(r.phase) >= 5 then Some(r.name) else None
  }

  predicate HitCounted(r: Req) { HitStage(r.phase) >= 2 }

  /** A step takes a request to the next count it has begun and skips none. */
  lemma StagesAfter(cfg: Config, s: State, r: Req)
    ensures var p, p' := r.phase, ReqAfter(cfg, s, r).phase;
            && QueryStage(p') == Min(QueryStage(p) + 1, 2)
            && (SinkStage(p) == 0 ==> SinkStage(p') <= 1)
            && (SinkStage(p) > 0 ==> SinkStage(p') == Min(SinkStage(p) + 1, 5) && SinkSource(p') == SinkSource(p))
            && (HitStage(p) == 0 ==> HitStage(p') <= 1)
            && (HitStage(p) > 0 ==> HitStage(p') == 2)
  {}

  /** Every counter equals the recount of the updates the requests have completed. */
  ghost predicate Recounted(c: Stats.Counters, requests: seq<Req>) {
    && c.total == Wrap(|requests|)
    && c.blocked == Wrap(Count(requests, BlockCounted))
    && c.hits == Wrap(Count(requests, HitCounted))
    && Tally(c.clientQueries, requests, ClientCounted)
    && Tally(c.domainQueries, requests, DomainCounted)
    && Tally(c.clientBlocks, requests, ClientBlockCounted)
    && Tally(c.domainBlocks, requests, DomainBlockCounted)
    && |c.bySource| == Stats.SOURCES && CellTally(c.bySource, requests, SourceCounted)
  }

  lemma ArrivalRecounted(c: Stats.Counters, requests: seq<Req>, r: Req)
    requires Recounted(c, requests) && r.phase == CountClient
    ensures Recounted(c.(total := Inc(c.total)), requests + [r])
  {
    WrapInc(|requests|);
    assert !BlockCounted(r) && !HitCounted(r);
    CountAppend(requests, r, BlockCounted);
    CountAppend(requests, r, HitCounted);
    assert ClientCounted(r) == None && DomainCounted(r) == None;
    assert ClientBlockCounted(r) == None && DomainBlockCounted(r) == None && SourceCounted(r) == None;
    TallyAppend(c.clientQueries, requests, r, ClientCounted);
    TallyAppend(c.domainQueries, requests, r, DomainCounted);
    TallyAppend(c.clientBlocks, requests, r, ClientBlockCounted);
    TallyAppend(c.domainBlocks, requests, r, DomainBlockCounted);
    CellTallyAppend(c.bySource, requests, r, SourceCounted);
  }

  lemma {:induction false} ScalarUpdate(x: u64, requests: seq<Req>, i: nat, r': Req, p: Req -> bool)
    requires i < |requests| && x == Wrap(Count(requests, p))
    ensures p(requests[i]) == p(r') ==> x == Wrap(Count(requests[i := r'], p))
    ensures !p(requests[i]) && p(r') ==> Inc(x) == Wrap(Count(requests[i := r'], p))
  {
    CountUpdate(requests, i, r', p);
    WrapInc(Count(requests, p));
  }

  /** What the query counters become when r turns into r', from the updates that separate the two. */
  ghost predicate QueriesMove(c: Stats.Counters, c': Stats.Counters, r: Req, r': Req) {
    && c'.total == c.total
    && MapMoves(c.clientQueries, c'.clientQueries, ClientCounted(r), ClientCounted(r'))
    && MapMoves(c.domainQueries, c'.domainQueries, DomainCounted(r), DomainCounted(r'))
  }

  ghost predicate BlocksMove(c: Stats.Counters, c': Stats.Counters, r: Req, r': Req) {
    && c'.blocked == (if !BlockCounted(r) && BlockCounted(r') then Inc(c.blocked) else c.blocked)
    && (BlockCounted(r) ==> BlockCounted(r'))
    && MapMoves(c.clientBlocks, c'.clientBlocks, ClientBlockCounted(r), ClientBlockCounted(r'))
    && MapMoves(c.domainBlocks, c'.domainBlocks, DomainBlockCounted(r), DomainBlockCounted(r'))
  }

  ghost predicate SourcesMove(c: Stats.Counters, c': Stats.Counters, r: Req, r': Req) {
    if SourceCounted(r) == SourceCounted(r') then c'.bySource == c.bySource
    else SourceCounted(r).None? && c'.bySource == BumpCell(c.bySource, SourceCounted(r').value)
  }

  ghost predicate HitsMove(c: Stats.Counters, c': Stats.Counters, r: Req, r': Req) {
    && c'.hits == (if !HitCounted(r) && HitCounted(r') then Inc(c.hits) else c.hits)
    && (HitCounted(r) ==> HitCounted(r'))
  }

  ghost predicate CountersMove(c: Stats.Counters, c': Stats.Counters, r: Req, r': Req) {
    QueriesMove(c, c', r, r') && BlocksMove(c, c', r, r') && SourcesMove(c, c', r, r') && HitsMove(c, c', r, r')
  }

  ghost predicate MapMoves(m: map<string, u64>, m': map<string, u64>, before: Option<string>, after: Option<string>) {
    if before == after then m' == m else before.None? && m' == Bump(m, after.value)
  }

  lemma MapMoveRecounted(m: map<string, u64>, m': map<string, u64>, requests: seq<Req>, i: nat, r': Req,
                         f: Req -> Option<string>)
    requires i < |requests| && Tally(m, requests, f) && MapMoves(m, m', f(requests[i]), f(r'))
    ensures Tally(m', requests[i := r'], f)
  {
    if f(requests[i]) == f(r') {
      TallySame(m, requests, i, r', f);
    } else {
      TallyBump(m, requests, i, r', f, f(r').value);
    }
  }

  lemma MoveRecounted(c: Stats.Counters, c': Stats.Counters, requests: seq<Req>, i: nat, r': Req)
    requires i < |requests| && Recounted(c, requests) && CountersMove(c, c', requests[i], r')
    ensures Recounted(c', requests[i := r'])
  {
    ScalarUpdate(c.blocked, requests, i, r', BlockCounted);
    ScalarUpdate(c.hits, requests, i, r', HitCounted);
    MapMoveRecounted(c.clientQueries, c'.clientQueries, requests, i, r', ClientCounted);
    MapMoveRecounted(c.domainQueries, c'.domainQueries, requests, i, r', DomainCounted);
    MapMoveRecounted(c.clientBlocks, c'.clientBlocks, requests, i, r', ClientBlockCounted);
    MapMoveRecounted(c.domainBlocks, c'.domainBlocks, requests, i, r', DomainBlockCounted);
    if SourceCounted(requests[i]) == SourceCounted(r') {
      CellTallySame(c.bySource, requests, i, r', SourceCounted);
    } else {
      CellTallyBump(c.bySource, requests, i, r', SourceCounted, SourceCounted(r').value);
    }
  }

  lemma EffectCounts(cfg: Config, s: State, id: nat, r: Req)
    ensures Effect(cfg, s, id, r).counters == CountersAfter(s.counters, r)
  {}

  lemma EffectMovesCounters(cfg: Config, s: State, id: nat, r: Req)
    ensures CountersMove(s.counters, Effect(cfg, s, id, r).counters, r, ReqAfter(cfg, s, r))
  {
    EffectCounts(cfg, s, id, r);
    StagesAfter(cfg, s, r);
    ReqAfterKeepsIdentity(cfg, s, r);
    StagesMoveQueries(s.counters, r, ReqAfter(cfg, s, r));
    StagesMoveBlocks(s.counters, r, ReqAfter(cfg, s, r));
    StagesMoveHits(s.counters, r, ReqAfter(cfg, s, r));
  }

  // The counter update of a phase is the one its stages call for.

  lemma StagesMoveQueries(c: Stats.Counters, r: Req, r': Req)
    requires r'.client == r.client && r'.name == r.name
    requires QueryStage(r'.phase) == Min(QueryStage(r.phase) + 1, 2)
    ensures QueriesMove(c, CountersAfter(c, r), r, r')
  {}

  lemma StagesMoveBlocks(c: Stats.Counters, r: Req, r': Req)
    requires r'.client == r.client && r'.name == r.name
    requires SinkStage(r.phase) == 0 ==> SinkStage(r'.phase) <= 1
    requires SinkStage(r.phase) > 0 ==>
               SinkStage(r'.phase) == Min(SinkStage(r.phase) + 1, 5) && SinkSource(r'.phase) == SinkSource(r.phase)
    ensures BlocksMove(c, CountersAfter(c, r), r, r') && SourcesMove(c, CountersAfter(c, r), r, r')
  {}

  lemma StagesMoveHits(c: Stats.Counters, r: Req, r': Req)
    requires HitStage(r.phase) == 0 ==> HitStage(r'.phase) <= 1
    requires HitStage(r.phase) > 0 ==> HitStage(r'.phase) == 2
    ensures HitsMove(c, CountersAfter(c, r), r, r')
  {}

  lemma NextRecounted(cfg: Config, s: State, step: Step)
    requires Recounted(s.counters, s.requests)
    ensures Recounted(Next(cfg, s, step).counters, Next(cfg, s, step).requests)
  {
    match step
    case Arrive(client, rawName, qtype) =>
      ArrivalRecounted(s.counters, s.requests, Req(client, QueryName(rawName), qtype, s.now, CountClient));
    case Advance(task) =>
      match task {
        case Request(id) =>
          if id < |s.requests| {
            var r := s.requests[id];
            EffectMovesCounters(cfg, s, id, r);
            MoveRecounted(s.counters, Effect(cfg, s, id, r).counters, s.requests, id, ReqAfter(cfg, s, r));
          }
        case Refresh(id) =>
      }
    case Reply(task, resolution) =>
      if task.Request? && task.id < |s.requests| && s.requests[task.id].phase == Upstream(Awaiting) {
        var r' := Next(cfg, s, step).requests[task.id];
        assert CountersMove(s.counters, s.counters, s.requests[task.id], r');
        MoveRecounted(s.counters, s.counters, s.requests, task.id, r');
      }
    case _ =>
  }

  lemma InitRecounted()
    ensures Recounted(Stats.NoCounts(), [])
  {
    forall f: Req -> Option<nat>, k: nat ensures Count([], Keyed(f, k)) == 0 {}
  }

  /** In every run and at every moment the incremental counters equal the batch recount. */
  lemma {:induction false} CountersEqualRecount(cfg: Config, matcher: Matcher, t0: nat, steps: seq<Step>)
    ensures var s := Exec(cfg, Init(matcher, t0), steps); Recounted(s.counters, s.requests)
  {
    if steps == [] {
      InitRecounted();
    } else {
      CountersEqualRecount(cfg, matcher, t0, steps[..|steps| - 1]);
      NextRecounted(cfg, Exec(cfg, Init(matcher, t0), steps[..|steps| - 1]), steps[|steps| - 1]);
    }
  }

  // ----- laws of the counters ------------------------------------------------------------------

  /** Before any counter can have wrapped. */
  lemma ScalarsExact(c: Stats.Counters, requests: seq<Req>)
    requires Recounted(c, requests) && |requests| < U64
    ensures c.total == |requests| && c.blocked == Count(requests, BlockCounted) && c.hits == Count(requests, HitCounted)
  {
    CountBound(requests, BlockCounted);
    CountBound(requests, HitCounted);
    SmallWrap(|requests|);
    SmallWrap(Count(requests, BlockCounted));
    SmallWrap(Count(requests, HitCounted));
  }

  ghost predicate AddsUp(c: Stats.Counters, requests: seq<Req>) {
    && SumValues(c.clientQueries) == Count(requests, Assigned(ClientCounted))
    && SumValues(c.domainQueries) == Count(requests, Assigned(DomainCounted))
    && SumValues(c.clientBlocks) == Count(requests, Assigned(ClientBlockCounted))
    && SumValues(c.domainBlocks) == Count(requests, Assigned(DomainBlockCounted))
    && Sum(c.bySource) == Count(requests, Assigned(SourceCounted))
  }

  lemma SourcesAreBytes(r: Req)
    ensures SourceCounted(r).Some? ==> SourceCounted(r).value < Stats.SOURCES
  {}

  lemma SourcesAddUp(c: Stats.Counters, requests: seq<Req>)
    requires Recounted(c, requests) && |requests| < U64
    ensures Sum(c.bySource) == Count(requests, Assigned(SourceCounted))
  {
    forall r: Req ensures SourceCounted(r).Some? ==> SourceCounted(r).value < Stats.SOURCES { SourcesAreBytes(r); }
    CellTallySum(c.bySource, requests, SourceCounted);
  }

  lemma RecountAddsUp(c: Stats.Counters, requests: seq<Req>)
    requires Recounted(c, requests) && |requests| < U64
    ensures AddsUp(c, requests)
  {
    TallySum(c.clientQueries, requests, ClientCounted);
    TallySum(c.domainQueries, requests, DomainCounted);
    TallySum(c.clientBlocks, requests, ClientBlockCounted);
    TallySum(c.domainBlocks, requests, DomainBlockCounted);
    SourcesAddUp(c, requests);
  }

  /** While fewer than 2^64 requests have arrived, each group of counters adds up to the number of requests that
      have made that update. */
  lemma {:induction false} CountersAddUp(cfg: Config, matcher: Matcher, t0: nat, steps: seq<Step>)
    ensures var s := Exec(cfg, Init(matcher, t0), steps);
            |s.requests| < U64 ==> AddsUp(s.counters, s.requests)
  {
    var s := Exec(cfg, Init(matcher, t0), steps);
    CountersEqualRecount(cfg, matcher, t0, steps);
    if |s.requests| < U64 { RecountAddsUp(s.counters, s.requests); }
  }

  ghost predicate NoMoreBlocksThanQueries(c: Stats.Counters) {
    forall key :: Get(c.clientBlocks, key) <= Get(c.clientQueries, key) &&
                  Get(c.domainBlocks, key) <= Get(c.domainQueries, key)
  }

  lemma RecountBoundsBlocks(c: Stats.Counters, requests: seq<Req>)
    requires Recounted(c, requests) && |requests| < U64
    ensures NoMoreBlocksThanQueries(c)
  {
    forall key
      ensures Get(c.clientBlocks, key) <= Get(c.clientQueries, key)
      ensures Get(c.domainBlocks, key) <= Get(c.domainQueries, key)
    {
      FewerBlocks(requests, key);
      TallyBounds(c.clientBlocks, c.clientQueries, requests, ClientBlockCounted, ClientCounted, key);
      TallyBounds(c.domainBlocks, c.domainQueries, requests, DomainBlockCounted, DomainCounted, key);
    }
  }

  lemma TallyBounds(m: map<string, u64>, n: map<string, u64>, requests: seq<Req>, f: Req -> Option<string>,
                    g: Req -> Option<string>, key: string)
    requires Tally(m, requests, f) && Tally(n, requests, g) && |requests| < U64
    requires Count(requests, Keyed(f, key)) <= Count(requests, Keyed(g, key))
    ensures Get(m, key) <= Get(n, key)
  {
    CountBound(requests, Keyed(g, key));
  }

  /** In every state no client and no domain has more blocks than queries. */
  lemma {:induction false} BlocksNeverExceedQueries(cfg: Config, matcher: Matcher, t0: nat, steps: seq<Step>)
    ensures var s := Exec(cfg, Init(matcher, t0), steps);
            |s.requests| < U64 ==> NoMoreBlocksThanQueries(s.counters)
  {
    var s := Exec(cfg, Init(matcher, t0), steps);
    CountersEqualRecount(cfg, matcher, t0, steps);
    if |s.requests| < U64 { RecountBoundsBlocks(s.counters, s.requests); }
  }

  lemma FewerBlocks(requests: seq<Req>, key: string)
    ensures Count(requests, Keyed(ClientBlockCounted, key)) <= Count(requests, Keyed(ClientCounted, key))
    ensures Count(requests, Keyed(DomainBlockCounted, key)) <= Count(requests, Keyed(DomainCounted, key))
  {
    forall r: Req
      ensures ClientBlockCounted(r) == Some(key) ==> ClientCounted(r) == Some(key)
      ensures DomainBlockCounted(r) == Some(key) ==> DomainCounted(r) == Some(key)
    {
      assert SinkStage(r.phase) >= 1 ==> QueryStage(r.phase) == 2;
    }
    CountImplies(requests, Keyed(ClientBlockCounted, key), Keyed(ClientCounted, key));
    CountImplies(requests, Keyed(DomainBlockCounted, key), Keyed(DomainCounted, key));
  }

  ghost predicate AllDone(requests: seq<Req>) { forall r :: r in requests ==> r.phase.Done? }

  ghost predicate Quiet(s: State) { AllDone(s.requests) }

  lemma CountSame(requests: seq<Req>, p: Req -> bool, q: Req -> bool)
    requires forall r :: r in requests ==> (p(r) <==> q(r))
    ensures Count(requests, p) == Count(requests, q)
  {
    CountImplies(requests, p, q);
    CountImplies(requests, q, p);
  }

  lemma DoneStages(r: Req)
    requires r.phase.Done?
    ensures ClientCounted(r).Some? && DomainCounted(r).Some?
    ensures SourceCounted(r).Some? <==> BlockCounted(r)
    ensures ClientBlockCounted(r).Some? <==> BlockCounted(r)
    ensures DomainBlockCounted(r).Some? <==> BlockCounted(r)
  {}

  lemma DoneQueryCounts(requests: seq<Req>)
    requires AllDone(requests)
    ensures Count(requests, Assigned(ClientCounted)) == Count(requests, Assigned(DomainCounted)) == |requests|
  {
    forall r | r in requests ensures ClientCounted(r).Some? && DomainCounted(r).Some? { DoneStages(r); }
    CountBound(requests, Assigned(ClientCounted));
    CountBound(requests, Assigned(DomainCounted));
  }

  lemma DoneBlockCounts(requests: seq<Req>)
    requires AllDone(requests)
    ensures Count(requests, Assigned(SourceCounted)) == Count(requests, BlockCounted)
    ensures Count(requests, Assigned(ClientBlockCounted)) == Count(requests, BlockCounted)
    ensures Count(requests, Assigned(DomainBlockCounted)) == Count(requests, BlockCounted)
  {
    forall r | r in requests
      ensures SourceCounted(r).Some? <==> BlockCounted(r)
      ensures ClientBlockCounted(r).Some? <==> BlockCounted(r)
      ensures DomainBlockCounted(r).Some? <==> BlockCounted(r)
    {
      DoneStages(r);
    }
    CountSame(requests, Assigned(SourceCounted), BlockCounted);
    CountSame(requests, Assigned(ClientBlockCounted), BlockCounted);
    CountSame(requests, Assigned(DomainBlockCounted), BlockCounted);
  }

  ghost predicate GroupsAgree(c: Stats.Counters) {
    && SumValues(c.clientQueries) == SumValues(c.domainQueries) == c.total
    && Sum(c.bySource) == SumValues(c.clientBlocks) == SumValues(c.domainBlocks) == c.blocked
  }

  lemma DoneGroupsAgree(c: Stats.Counters, requests: seq<Req>)
    requires AddsUp(c, requests) && AllDone(requests)
    requires c.total == |requests| && c.blocked == Count(requests, BlockCounted)
    ensures GroupsAgree(c)
  {
    DoneQueryCounts(requests);
    DoneBlockCounts(requests);
  }

  /** With no request in flight the three groups of query counts agree with each other, and so do the four of
      blocks. */
  lemma {:induction false} QuietCountersAgree(cfg: Config, matcher: Matcher, t0: nat, steps: seq<Step>)
    ensures var s := Exec(cfg, Init(matcher, t0), steps);
            Quiet(s) && |s.requests| < U64 ==> GroupsAgree(s.counters)
  {
    var s := Exec(cfg, Init(matcher, t0), steps);
    CountersEqualRecount(cfg, matcher, t0, steps);
    if Quiet(s) && |s.requests| < U64 {
      RecountAddsUp(s.counters, s.requests);
      ScalarsExact(s.counters, s.requests);
      DoneGroupsAgree(s.counters, s.requests);
    }
  }

  // ----- every request is counted under one fate ---------------------------------------------------

  datatype Fate = AtIpv6 | AtLocal | AtBlock | AtCache | AtUpstream | AtFailure | Undecided

  /** A request belongs to the block and hit counts from the moment it is counted there, to the other
      fates from the moment its answer is decided. */
  function FateOf(r: Req): Fate {
    if BlockCounted(r) then AtBlock
    else if HitCounted(r) then AtCache
    else
      match Decided(r.phase)
      case None => Undecided
      case Some(o) =>
        match o
        case Ipv6Off => AtIpv6
        case FromLocal(_) => AtLocal
        case Sunk(_) => AtBlock
        case FromCache(_) => AtCache
        case FromUpstream(_, _) => AtUpstream
        case NoAnswer(_) => AtFailure
  }

  function Fated(f: Fate): Req -> bool { r => FateOf(r) == f }

  lemma {:induction false} FatesPartition(requests: seq<Req>)
    ensures |requests| ==
            Count(requests, Fated(AtIpv6)) + Count(requests, Fated(AtLocal)) + Count(requests, Fated(AtBlock)) +
            Count(requests, Fated(AtCache)) + Count(requests, Fated(AtUpstream)) + Count(requests, Fated(AtFailure)) +
            Count(requests, Fated(Undecided))
  {
    if requests != [] { FatesPartition(requests[..|requests| - 1]); }
  }

  lemma CountedFates(requests: seq<Req>)
    ensures Count(requests, BlockCounted) == Count(requests, Fated(AtBlock))
    ensures Count(requests, HitCounted) == Count(requests, Fated(AtCache))
  {
    forall r: Req
      ensures BlockCounted(r) <==> FateOf(r) == AtBlock
      ensures HitCounted(r) <==> FateOf(r) == AtCache
    {
      assert BlockCounted(r) ==> !HitCounted(r);
    }
    CountSame(requests, BlockCounted, Fated(AtBlock));
    CountSame(requests, HitCounted, Fated(AtCache));
  }

  ghost predicate Partitioned(c: Stats.Counters, requests: seq<Req>) {
    && c.total ==
       Count(requests, Fated(AtIpv6)) + Count(requests, Fated(AtLocal)) + c.blocked + c.hits +
       Count(requests, Fated(AtUpstream)) + Count(requests, Fated(AtFailure)) + Count(requests, Fated(Undecided))
    && c.blocked + c.hits <= c.total
  }

  lemma RecountPartitions(c: Stats.Counters, requests: seq<Req>)
    requires c.total == |requests| && c.blocked == Count(requests, BlockCounted) &&
             c.hits == Count(requests, HitCounted)
    ensures Partitioned(c, requests)
  {
    FatesPartition(requests);
    CountedFates(requests);
  }

  /** In every reachable state the query counter is the sum of the six fates and the undecided requests, where
      the blocked and cache-hit counters are themselves two of the terms. */
  lemma {:induction false} QueriesPartition(cfg: Config, matcher: Matcher, t0: nat, steps: seq<Step>)
    ensures var s := Exec(cfg, Init(matcher, t0), steps);
            |s.requests| < U64 ==> Partitioned(s.counters, s.requests)
  {
    var s := Exec(cfg, Init(matcher, t0), steps);
    CountersEqualRecount(cfg, matcher, t0, steps);
    if |s.requests| < U64 {
      ScalarsExact(s.counters, s.requests);
      RecountPartitions(s.counters, s.requests);
    }
  }

  // ----- what a snapshot can show ---------------------------------------------------------------------

  predicate IsArrival(step: Step) { step.Arrive? }

  lemma {:induction false} RequestsAreArrivals(cfg: Config, matcher: Matcher, t0: nat, steps: seq<Step>)
    ensures |Exec(cfg, Init(matcher, t0), steps).requests| == Count(steps, IsArrival)
  {
    if steps != [] {
      RequestsAreArrivals(cfg, matcher, t0, steps[..|steps| - 1]);
      OnlyArrivalsAdd(cfg, Exec(cfg, Init(matcher, t0), steps[..|steps| - 1]), steps[|steps| - 1]);
    }
  }

  lemma OnlyArrivalsAdd(cfg: Config, s: State, step: Step)
    ensures |Next(cfg, s, step).requests| == |s.requests| + (if step.Arrive? then 1 else 0)
  {}

  /** Once counted as blocked, a request stays so. */
  lemma BlockedGrow(cfg: Config, s: State, step: Step)
    ensures Count(s.requests, BlockCounted) <= Count(Next(cfg, s, step).requests, BlockCounted)
  {
    match step
    case Arrive(client, rawName, qtype) =>
      CountAppend(s.requests, Req(client, QueryName(rawName), qtype, s.now, CountClient), BlockCounted);
    case Advance(task) =>
      if task.Request? && task.id < |s.requests| {
        EffectGrows(cfg, s, task.id, s.requests[task.id]);
        StagesAfter(cfg, s, s.requests[task.id]);
        CountUpdate(s.requests, task.id, ReqAfter(cfg, s, s.requests[task.id]), BlockCounted);
      }
    case Reply(task, resolution) =>
      if task.Request? && task.id < |s.requests| && s.requests[task.id].phase == Upstream(Awaiting) {
        CountUpdate(s.requests, task.id, Next(cfg, s, step).requests[task.id], BlockCounted);
      }
    case _ =>
  }

  lemma {:induction false} BlockedGrowInRun(cfg: Config, matcher: Matcher, t0: nat, steps: seq<Step>, j: nat)
    requires j <= |steps|
    ensures Count(Exec(cfg, Init(matcher, t0), steps[..j]).requests, BlockCounted) <=
            Count(Exec(cfg, Init(matcher, t0), steps).requests, BlockCounted)
    decreases |steps|
  {
    if j == |steps| {
      assert steps[..j] == steps;
    } else {
      var before := steps[..|steps| - 1];
      assert before[..j] == steps[..j];
      BlockedGrowInRun(cfg, matcher, t0, before, j);
      BlockedGrow(cfg, Exec(cfg, Init(matcher, t0), before), steps[|steps| - 1]);
    }
  }

  /** A snapshot loads the query counter, then the block counter, then the hit counter, other steps in between. What it
      shows as blocked and cached together is at most what had arrived by the last load, so it exceeds the total that
      it shows by at most the queries that arrived meanwhile. */
  lemma {:induction false} SnapshotExcess(cfg: Config, matcher: Matcher, t0: nat, steps: seq<Step>, i: nat, j: nat)
    requires i <= j <= |steps| && |Exec(cfg, Init(matcher, t0), steps).requests| < U64
    ensures var total := Exec(cfg, Init(matcher, t0), steps[..i]).counters.total;
            var blocked := Exec(cfg, Init(matcher, t0), steps[..j]).counters.blocked;
            var hits := Exec(cfg, Init(matcher, t0), steps).counters.hits;
            blocked + hits <= total + Count(steps[i..], IsArrival)
  {
    var first, second, last := Exec(cfg, Init(matcher, t0), steps[..i]), Exec(cfg, Init(matcher, t0), steps[..j]),
                               Exec(cfg, Init(matcher, t0), steps);
    assert steps == steps[..i] + steps[i..] && steps == steps[..j] + steps[j..];
    CountConcat(steps[..i], steps[i..], IsArrival);
    CountConcat(steps[..j], steps[j..], IsArrival);
    RequestsAreArrivals(cfg, matcher, t0, steps[..i]);
    RequestsAreArrivals(cfg, matcher, t0, steps[..j]);
    RequestsAreArrivals(cfg, matcher, t0, steps);
    CountersEqualRecount(cfg, matcher, t0, steps[..i]);
    CountersEqualRecount(cfg, matcher, t0, steps[..j]);
    ScalarsExact(first.counters, first.requests);
    ScalarsExact(second.counters, second.requests);
    BlockedGrowInRun(cfg, matcher, t0, steps, j);
    QueriesPartition(cfg, matcher, t0, steps);
    CountersEqualRecount(cfg, matcher, t0, steps);
    ScalarsExact(last.counters, last.requests);
  }

  /** One query for an A record arrives and takes n steps. */
  function OneQuery(n: nat): seq<Step> {
    if n == 0 then [Arrive("c", "ads.", A)] else OneQuery(n - 1) + [Advance(Request(0))]
  }

  function PhaseAt(n: nat): Phase {
    if n == 0 then CountClient
    else if n == 1 then CountDomain
    else if n == 2 then Ipv6Gate
    else if n == 3 then LocalGate
    else if n == 4 then PauseGate
    else BlockGate
  }

  predicate Alone(s: State, phase: Phase) {
    |s.requests| == 1 && s.requests[0].phase == phase && s.requests[0].qtype == A &&
    s.pausedUntil == None && s.counters.blocked == 0
  }

  lemma AloneMovesOn(cfg: Config, s: State, n: nat)
    requires cfg.localRecords == map[] && n < 5 && Alone(s, PhaseAt(n))
    ensures Alone(Next(cfg, s, Advance(Request(0))), PhaseAt(n + 1))
    ensures Next(cfg, s, Advance(Request(0))).matcher == s.matcher
  {}

  lemma {:induction false} ReachesBlockGate(cfg: Config, matcher: Matcher, n: nat)
    requires cfg.localRecords == map[] && n <= 5
    ensures Alone(Exec(cfg, Init(matcher, 0), OneQuery(n)), PhaseAt(n))
    ensures Exec(cfg, Init(matcher, 0), OneQuery(n)).matcher == matcher
  {
    if n == 0 {
      assert Exec(cfg, Init(matcher, 0), []) == Init(matcher, 0);
      assert OneQuery(0)[..0] == [];
    } else {
      ReachesBlockGate(cfg, matcher, n - 1);
      AloneMovesOn(cfg, Exec(cfg, Init(matcher, 0), OneQuery(n - 1)), n - 1);
      assert OneQuery(n)[..|OneQuery(n - 1)|] == OneQuery(n - 1);
    }
  }

  /** And it can: loaded just before a query that is then blocked, the total is zero and the block counter one. */
  lemma SnapshotCanExceed() returns (cfg: Config, matcher: Matcher, steps: seq<Step>)
    ensures Exec(cfg, Init(matcher, 0), []).counters.total == 0
    ensures Exec(cfg, Init(matcher, 0), steps).counters.blocked == 1
  {
    cfg, matcher := Config.Config(false, 0, 0, false, map[], name => true), name => Some(0);
    ReachesBlockGate(cfg, matcher, 5);
    var gates, go := OneQuery(5), Advance(Request(0));
    var checked := Exec(cfg, Init(matcher, 0), gates + [go]);
    assert (gates + [go])[..|gates|] == gates;
    assert checked.requests[0].phase == CountBlocked(0) && checked.counters.blocked == 0;
    steps := gates + [go] + [go];
    assert steps[..|gates| + 1] == gates + [go];
  }
}
