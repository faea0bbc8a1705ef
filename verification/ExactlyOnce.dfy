/** Exactly one response and one log entry per request, one refresh per stale hit, and conservation of upstream
    calls; over every interleaving. */
module ExactlyOnce {
  import opened Prelude
  import opened Dns
  import opened QueryLog
  import opened HandlerModel
  import opened Accounting
  import Stats

  // ----- exactly once ------------------------------------------------------------------------------

  /** There is exactly one item for every request with the flag, and none for any other. */
  ghost predicate Once<E(!new)>(items: seq<E>, tag: E -> Option<nat>, requests: seq<Req>, flag: Req -> bool) {
    forall id: nat :: Count(items, Keyed(tag, id)) == if id < |requests| && flag(requests[id]) then 1 else 0
  }

  lemma OnceKeep<E(!new)>(items: seq<E>, tag: E -> Option<nat>, requests: seq<Req>, i: nat, r': Req, flag: Req -> bool)
    requires Once(items, tag, requests, flag) && i < |requests| && flag(r') == flag(requests[i])
    ensures Once(items, tag, requests[i := r'], flag)
  {}

  lemma OnceArrive<E(!new)>(items: seq<E>, tag: E -> Option<nat>, requests: seq<Req>, r: Req, flag: Req -> bool)
    requires Once(items, tag, requests, flag) && !flag(r)
    ensures Once(items, tag, requests + [r], flag)
  {}

  lemma OnceAdd<E(!new)>(items: seq<E>, x: E, tag: E -> Option<nat>, requests: seq<Req>, i: nat, r': Req,
                         flag: Req -> bool)
    requires Once(items, tag, requests, flag) && i < |requests|
    requires tag(x) == Some(i) && !flag(requests[i]) && flag(r')
    ensures Once(items + [x], tag, requests[i := r'], flag)
  {
    forall id: nat
      ensures Count(items + [x], Keyed(tag, id)) ==
              if id < |requests| && flag(requests[i := r'][id]) then 1 else 0
    {
      CountAppend(items, x, Keyed(tag, id));
    }
  }

  function SentFor(x: Sent): Option<nat> { Some(x.id) }
  function SubmittedFor(x: Submitted): Option<nat> { Some(x.id) }
  function RefreshFor(f: Refresher): Option<nat> { Some(f.origin) }

  predicate Responded(r: Req) { r.phase.Log? || r.phase.Done? }
  function LogDone(cfg: Config): Req -> bool { (r: Req) => cfg.logging && r.phase.Done? }
  predicate StaleServed(r: Req) {
    Decided(r.phase).Some? && Decided(r.phase).value.FromCache? && Decided(r.phase).value.hit.stale
  }

  /** One response per request that has been answered, one log entry per request that is done, one refresh per stale
      hit; each of them the one its request calls for. */
  ghost predicate OncePerRequest(cfg: Config, s: State) {
    && Once(s.sent, SentFor, s.requests, Responded)
    && Once(s.submitted, SubmittedFor, s.requests, LogDone(cfg))
    && Once(s.refreshes, RefreshFor, s.requests, StaleServed)
  }

  /** A response carries what its request was decided to get; a log entry says so, as of some instant since its
      request began; a refresh is for its request's own name and type. */
  ghost predicate ContentsRight(cfg: Config, s: State) {
    && (forall j :: 0 <= j < |s.sent| ==> ResponseRight(cfg, s.requests, s.sent[j]))
    && (forall j :: 0 <= j < |s.submitted| ==> EntryRight(s.now, s.requests, s.submitted[j]))
    && (forall j :: 0 <= j < |s.refreshes| ==>
                      s.refreshes[j].origin < |s.requests| &&
                      s.refreshes[j].key == s.requests[s.refreshes[j].origin].CacheKey())
  }

  ghost predicate ResponseRight(cfg: Config, requests: seq<Req>, x: Sent) {
    x.id < |requests| && Responded(requests[x.id]) &&
    x.response == ResponseFor(cfg, requests[x.id], requests[x.id].phase.outcome)
  }

  ghost predicate EntryRight(latest: nat, requests: seq<Req>, x: Submitted) {
    x.id < |requests| && requests[x.id].phase.Done? &&
    exists now: nat :: requests[x.id].start <= now <= latest &&
                       x.entry == LogFor(requests[x.id], requests[x.id].phase.outcome, now)
  }

  ghost predicate StartedInPast(s: State) { forall i :: 0 <= i < |s.requests| ==> s.requests[i].start <= s.now }

  lemma NextStartedInPast(cfg: Config, s: State, step: Step)
    requires StartedInPast(s)
    ensures StartedInPast(Next(cfg, s, step))
  {
    if step.Advance? && step.task.Request? && step.task.id < |s.requests| {
      EffectGrows(cfg, s, step.task.id, s.requests[step.task.id]);
    }
  }

  /** The flags of a request after its own step. */
  lemma FlagsAfter(cfg: Config, s: State, r: Req)
    ensures var r' := ReqAfter(cfg, s, r);
            && (Responded(r') <==> Responded(r) || r.phase.Send?)
            && (Responded(r) || r.phase.Send? ==> r'.phase.outcome == r.phase.outcome && r'.start == r.start)
            && (LogDone(cfg)(r') <==> LogDone(cfg)(r) || (r.phase.Log? && cfg.logging))
            && (StaleServed(r') <==> StaleServed(r) || (r.phase.Spawn? && r.phase.hit.stale))
  {}

  lemma NewRequestHasNoFlags(cfg: Config, r: Req)
    requires r.phase == CountClient
    ensures !Responded(r) && !LogDone(cfg)(r) && !StaleServed(r)
  {}

  /** Log entries are only formed with logging on, refreshes only for stale hits. */
  ghost predicate PhaseGuards(cfg: Config, r: Req) {
    && (r.phase.Log? ==> cfg.logging)
    && (r.phase.Spawn? ==> r.phase.hit.stale)
  }

  ghost predicate Guarded(cfg: Config, s: State) {
    forall i :: 0 <= i < |s.requests| ==> PhaseGuards(cfg, s.requests[i])
  }

  lemma NextGuarded(cfg: Config, s: State, step: Step)
    requires Guarded(cfg, s)
    ensures Guarded(cfg, Next(cfg, s, step))
  {
    if step.Advance? && step.task.Request? && step.task.id < |s.requests| {
      EffectGrows(cfg, s, step.task.id, s.requests[step.task.id]);
      GuardsAfter(cfg, s, s.requests[step.task.id]);
    }
  }

  lemma GuardsAfter(cfg: Config, s: State, r: Req)
    ensures PhaseGuards(cfg, ReqAfter(cfg, s, r))
  {}

  lemma RequestStepOnce(cfg: Config, s: State, id: nat)
    requires OncePerRequest(cfg, s) && Guarded(cfg, s) && id < |s.requests|
    ensures OncePerRequest(cfg, AdvanceRequest(cfg, s, id))
  {
    var r := s.requests[id];
    var r' := ReqAfter(cfg, s, r);
    FlagsAfter(cfg, s, r);
    EffectQueues(cfg, s, id, r);
    assert PhaseGuards(cfg, r);
    if r.phase.Send? {
      OnceAdd(s.sent, Sent.Sent(id, ResponseFor(cfg, r, r.phase.outcome)), SentFor, s.requests, id, r', Responded);
    } else {
      OnceKeep(s.sent, SentFor, s.requests, id, r', Responded);
    }
    if r.phase.Log? {
      OnceAdd(s.submitted, Submitted.Submitted(id, LogFor(r, r.phase.outcome, s.now)), SubmittedFor, s.requests, id, r',
              LogDone(cfg));
    } else {
      OnceKeep(s.submitted, SubmittedFor, s.requests, id, r', LogDone(cfg));
    }
    if r.phase.Spawn? {
      OnceAdd(s.refreshes, Refresher(r.CacheKey(), id, Calling), RefreshFor, s.requests, id, r', StaleServed);
    } else {
      OnceKeep(s.refreshes, RefreshFor, s.requests, id, r', StaleServed);
    }
  }

  lemma EffectQueues(cfg: Config, s: State, id: nat, r: Req)
    ensures var e := Effect(cfg, s, id, r);
            && e.sent == (if r.phase.Send? then s.sent + [Sent.Sent(id, ResponseFor(cfg, r, r.phase.outcome))]
                          else s.sent)
            && e.submitted ==
               (if r.phase.Log? then s.submitted + [Submitted.Submitted(id, LogFor(r, r.phase.outcome, s.now))]
                else s.submitted)
            && e.refreshes == (if r.phase.Spawn? then s.refreshes + [Refresher(r.CacheKey(), id, Calling)]
                               else s.refreshes)
  {}

  /** A refresh keeps its origin, so moving it on keeps the count of refreshes per origin. */
  lemma RefreshMoveOnce(refreshes: seq<Refresher>, j: nat, rc: Rc, requests: seq<Req>)
    requires Once(refreshes, RefreshFor, requests, StaleServed) && j < |refreshes|
    ensures Once(refreshes[j := refreshes[j].(rc := rc)], RefreshFor, requests, StaleServed)
  {
    var f' := refreshes[j].(rc := rc);
    forall id: nat ensures Count(refreshes[j := f'], Keyed(RefreshFor, id)) == Count(refreshes, Keyed(RefreshFor, id)) {
      CountUpdate(refreshes, j, f', Keyed(RefreshFor, id));
      assert RefreshFor(f') == RefreshFor(refreshes[j]);
    }
  }

  lemma ArrivalOnce(cfg: Config, s: State, r: Req, c: Stats.Counters)
    requires OncePerRequest(cfg, s) && r.phase == CountClient
    ensures OncePerRequest(cfg, s.(counters := c, requests := s.requests + [r]))
  {
    NewRequestHasNoFlags(cfg, r);
    OnceArrive(s.sent, SentFor, s.requests, r, Responded);
    OnceArrive(s.submitted, SubmittedFor, s.requests, r, LogDone(cfg));
    OnceArrive(s.refreshes, RefreshFor, s.requests, r, StaleServed);
  }

  lemma ReplyOnce(cfg: Config, s: State, task: Task, resolution: Resolution)
    requires OncePerRequest(cfg, s)
    ensures OncePerRequest(cfg, Next(cfg, s, Reply(task, resolution)))
  {
    var s' := Next(cfg, s, Reply(task, resolution));
    match task
    case Request(id) =>
      if id < |s.requests| && s.requests[id].phase == Upstream(Awaiting) {
        var r' := s'.requests[id];
        assert !Responded(r') && !LogDone(cfg)(r') && !StaleServed(r');
        OnceKeep(s.sent, SentFor, s.requests, id, r', Responded);
        OnceKeep(s.submitted, SubmittedFor, s.requests, id, r', LogDone(cfg));
        OnceKeep(s.refreshes, RefreshFor, s.requests, id, r', StaleServed);
      }
    case Refresh(id) =>
      if id < |s.refreshes| && s.refreshes[id].rc == Awaiting {
        RefreshMoveOnce(s.refreshes, id, s'.refreshes[id].rc, s.requests);
      }
  }

  lemma NextOnce(cfg: Config, s: State, step: Step)
    requires OncePerRequest(cfg, s) && Guarded(cfg, s)
    ensures OncePerRequest(cfg, Next(cfg, s, step))
  {
    match step
    case Arrive(client, rawName, qtype) =>
      ArrivalOnce(cfg, s, Req(client, QueryName(rawName), qtype, s.now, CountClient), Next(cfg, s, step).counters);
    case Advance(task) =>
      match task {
        case Request(id) =>
          if id < |s.requests| { RequestStepOnce(cfg, s, id); }
        case Refresh(id) =>
          if id < |s.refreshes| {
            RefreshMoveOnce(s.refreshes, id, RcAfter(cfg, s.now, s.refreshes[id].rc), s.requests);
          }
      }
    case Reply(task, resolution) => ReplyOnce(cfg, s, task, resolution);
    case _ =>
  }

  // ----- right contents ----------------------------------------------------------------------------

  /** Once decided, a request keeps everything a response or a log entry is made from. */
  ghost predicate KeepsDecision(s: State, s': State) {
    && |s.requests| <= |s'.requests|
    && forall i :: 0 <= i < |s.requests| && Responded(s.requests[i]) ==>
                     var r, r' := s.requests[i], s'.requests[i];
                     && Responded(r') && (r.phase.Done? ==> r'.phase.Done?) && r'.phase.outcome == r.phase.outcome
                     && r'.client == r.client && r'.CacheKey() == r.CacheKey() && r'.start == r.start
  }

  lemma NextKeepsDecision(cfg: Config, s: State, step: Step)
    ensures KeepsDecision(s, Next(cfg, s, step))
  {
    NextKeepsTasks(cfg, s, step);
    if step.Advance? && step.task.Request? && step.task.id < |s.requests| {
      FlagsAfter(cfg, s, s.requests[step.task.id]);
    }
  }

  lemma SentStaysRight(cfg: Config, s: State, s': State, x: Sent)
    requires KeepsDecision(s, s') && ResponseRight(cfg, s.requests, x)
    ensures ResponseRight(cfg, s'.requests, x)
  {}

  lemma EntryStaysRight(s: State, s': State, x: Submitted)
    requires KeepsDecision(s, s') && s.now <= s'.now && EntryRight(s.now, s.requests, x)
    ensures EntryRight(s'.now, s'.requests, x)
  {
    var now: nat :| s.requests[x.id].start <= now <= s.now &&
                    x.entry == LogFor(s.requests[x.id], s.requests[x.id].phase.outcome, now);
    assert x.entry == LogFor(s'.requests[x.id], s'.requests[x.id].phase.outcome, now);
  }

  lemma NewSentIsRight(cfg: Config, s: State, step: Step, j: nat)
    requires |s.sent| <= j < |Next(cfg, s, step).sent|
    ensures ResponseRight(cfg, Next(cfg, s, step).requests, Next(cfg, s, step).sent[j])
  {
    EffectQueues(cfg, s, step.task.id, s.requests[step.task.id]);
    FlagsAfter(cfg, s, s.requests[step.task.id]);
    ReqAfterKeepsIdentity(cfg, s, s.requests[step.task.id]);
  }

  lemma NewEntryIsRight(cfg: Config, s: State, step: Step, j: nat)
    requires |s.submitted| <= j < |Next(cfg, s, step).submitted| && StartedInPast(s)
    ensures EntryRight(Next(cfg, s, step).now, Next(cfg, s, step).requests, Next(cfg, s, step).submitted[j])
  {
    var r := s.requests[step.task.id];
    EffectQueues(cfg, s, step.task.id, r);
    FlagsAfter(cfg, s, r);
    ReqAfterKeepsIdentity(cfg, s, r);
    assert LogFor(r, r.phase.outcome, s.now) == LogFor(ReqAfter(cfg, s, r), r.phase.outcome, s.now);
  }

  lemma RefreshesKeepTheirRequest(cfg: Config, s: State, step: Step)
    requires ContentsRight(cfg, s)
    ensures var s' := Next(cfg, s, step);
            forall j :: 0 <= j < |s'.refreshes| ==>
                          s'.refreshes[j].origin < |s'.requests| &&
                          s'.refreshes[j].key == s'.requests[s'.refreshes[j].origin].CacheKey()
  {
    var s' := Next(cfg, s, step);
    NextKeepsTasks(cfg, s, step);
    if step.Advance? && step.task.Request? && step.task.id < |s.requests| {
      EffectQueues(cfg, s, step.task.id, s.requests[step.task.id]);
      ReqAfterKeepsIdentity(cfg, s, s.requests[step.task.id]);
    }
    forall j | 0 <= j < |s'.refreshes|
      ensures s'.refreshes[j].origin < |s'.requests| &&
              s'.refreshes[j].key == s'.requests[s'.refreshes[j].origin].CacheKey()
    {
      if j < |s.refreshes| { assert s'.refreshes[j].origin == s.refreshes[j].origin; }
    }
  }

  lemma NextContentsRight(cfg: Config, s: State, step: Step)
    requires ContentsRight(cfg, s) && StartedInPast(s)
    ensures ContentsRight(cfg, Next(cfg, s, step))
  {
    var s' := Next(cfg, s, step);
    NextGrows(cfg, s, step);
    NextKeepsDecision(cfg, s, step);
    RefreshesKeepTheirRequest(cfg, s, step);
    forall j | 0 <= j < |s'.sent| ensures ResponseRight(cfg, s'.requests, s'.sent[j]) {
      if j < |s.sent| {
        assert s'.sent[j] == s.sent[j];
        SentStaysRight(cfg, s, s', s.sent[j]);
      } else {
        NewSentIsRight(cfg, s, step, j);
      }
    }
    forall j | 0 <= j < |s'.submitted| ensures EntryRight(s'.now, s'.requests, s'.submitted[j]) {
      if j < |s.submitted| {
        assert s'.submitted[j] == s.submitted[j];
        EntryStaysRight(s, s', s.submitted[j]);
      } else {
        NewEntryIsRight(cfg, s, step, j);
      }
    }
  }

  // ----- conservation of upstream calls -------------------------------------------------------------

  function Called(k: Key): Option<Key> { Some(k) }

  /** A refresh that has been spawned and has not yet called the resolver. */
  function Pending(f: Refresher): Option<Key> { if f.rc == Calling then Some(f.key) else None }

  /** A request that missed and has called the resolver. */
  function Missed(r: Req): Option<Key> {
    if r.phase.Upstream? then (if r.phase.rc == Calling then None else Some(r.CacheKey()))
    else
      match Decided(r.phase)
      case None => None
      case Some(o) => if o.FromUpstream? || o.NoAnswer? then Some(r.CacheKey()) else None
  }

  /** A request that was answered by a stale entry and has spawned its refresh. */
  function ServedStale(r: Req): Option<Key> { if StaleServed(r) then Some(r.CacheKey()) else None }

  /** Per name and type: calls made and refreshes about to call balance misses and stale hits. */
  ghost predicate BalancedFor(s: State, k: Key) {
    Count(s.calls, Keyed(Called, k)) + Count(s.refreshes, Keyed(Pending, k)) ==
    Count(s.requests, Keyed(Missed, k)) + Count(s.requests, Keyed(ServedStale, k))
  }

  lemma DemandAfter(cfg: Config, s: State, r: Req)
    requires PhaseGuards(cfg, r)
    ensures var r' := ReqAfter(cfg, s, r);
            && Missed(r') == (if r.phase == Upstream(Calling) then Some(r.CacheKey()) else Missed(r))
            && (r.phase == Upstream(Calling) ==> Missed(r) == None)
            && ServedStale(r') == (if r.phase.Spawn? then Some(r.CacheKey()) else ServedStale(r))
            && (r.phase.Spawn? ==> ServedStale(r) == None)
  {}

  lemma EffectCalls(cfg: Config, s: State, id: nat, r: Req)
    ensures Effect(cfg, s, id, r).calls == if r.phase == Upstream(Calling) then s.calls + [r.CacheKey()] else s.calls
  {}

  lemma RequestStepBalanced(cfg: Config, s: State, id: nat, k: Key)
    requires BalancedFor(s, k) && Guarded(cfg, s) && id < |s.requests|
    ensures BalancedFor(AdvanceRequest(cfg, s, id), k)
  {
    var r := s.requests[id];
    var r' := ReqAfter(cfg, s, r);
    assert PhaseGuards(cfg, r);
    DemandAfter(cfg, s, r);
    EffectCalls(cfg, s, id, r);
    EffectQueues(cfg, s, id, r);
    CountUpdate(s.requests, id, r', Keyed(Missed, k));
    CountUpdate(s.requests, id, r', Keyed(ServedStale, k));
    CountAppend(s.calls, r.CacheKey(), Keyed(Called, k));
    assert Called(r.CacheKey()) == Some(r.CacheKey());
    var f := Refresher(r.CacheKey(), id, Calling);
    CountAppend(s.refreshes, f, Keyed(Pending, k));
    assert Pending(f) == Some(r.CacheKey());
  }

  lemma RefreshStepBalanced(cfg: Config, s: State, id: nat, k: Key)
    requires BalancedFor(s, k) && id < |s.refreshes|
    ensures BalancedFor(AdvanceRefresh(cfg, s, id), k)
  {
    var f := s.refreshes[id];
    var f' := f.(rc := RcAfter(cfg, s.now, f.rc));
    var s' := AdvanceRefresh(cfg, s, id);
    assert s'.calls == (if f.rc == Calling then s.calls + [f.key] else s.calls);
    assert s'.requests == s.requests;
    CountUpdate(s.refreshes, id, f', Keyed(Pending, k));
    CountAppend(s.calls, f.key, Keyed(Called, k));
    assert Called(f.key) == Some(f.key) && Pending(f') == None;
    assert Pending(f) == if f.rc == Calling then Some(f.key) else None;
  }

  lemma ReplyToRequestBalanced(cfg: Config, s: State, id: nat, resolution: Resolution, k: Key)
    requires BalancedFor(s, k) && id < |s.requests|
    ensures BalancedFor(ReplyToRequest(cfg, s, id, resolution), k)
  {
    var r' := ReplyToRequest(cfg, s, id, resolution).requests[id];
    CountUpdate(s.requests, id, r', Keyed(Missed, k));
    CountUpdate(s.requests, id, r', Keyed(ServedStale, k));
    assert Missed(r') == Missed(s.requests[id]) && ServedStale(r') == ServedStale(s.requests[id]);
  }

  lemma ReplyToRefreshBalanced(cfg: Config, s: State, id: nat, resolution: Resolution, k: Key)
    requires BalancedFor(s, k) && id < |s.refreshes|
    ensures BalancedFor(ReplyToRefresh(cfg, s, id, resolution), k)
  {
    var f' := ReplyToRefresh(cfg, s, id, resolution).refreshes[id];
    CountUpdate(s.refreshes, id, f', Keyed(Pending, k));
    assert Pending(f') == Pending(s.refreshes[id]);
  }

  lemma ArrivalBalanced(s: State, r: Req, c: Stats.Counters, k: Key)
    requires BalancedFor(s, k) && r.phase == CountClient
    ensures BalancedFor(s.(counters := c, requests := s.requests + [r]), k)
  {
    CountAppend(s.requests, r, Keyed(Missed, k));
    CountAppend(s.requests, r, Keyed(ServedStale, k));
    assert Missed(r) == None && ServedStale(r) == None;
  }

  lemma NextBalanced(cfg: Config, s: State, step: Step, k: Key)
    requires BalancedFor(s, k) && Guarded(cfg, s)
    ensures BalancedFor(Next(cfg, s, step), k)
  {
    match step
    case Arrive(client, rawName, qtype) =>
      ArrivalBalanced(s, Req(client, QueryName(rawName), qtype, s.now, CountClient), Next(cfg, s, step).counters, k);
    case Advance(task) =>
      match task {
        case Request(id) => if id < |s.requests| { RequestStepBalanced(cfg, s, id, k); }
        case Refresh(id) => if id < |s.refreshes| { RefreshStepBalanced(cfg, s, id, k); }
      }
    case Reply(task, resolution) =>
      match task {
        case Request(id) => if id < |s.requests| { ReplyToRequestBalanced(cfg, s, id, resolution, k); }
        case Refresh(id) => if id < |s.refreshes| { ReplyToRefreshBalanced(cfg, s, id, resolution, k); }
      }
    case _ =>
  }

  // ----- blocked log entries --------------------------------------------------------------------------

  predicate SaysBlocked(x: Submitted) { x.entry.action == Blocked }

  /** Done as sunk or as switched-off IPv6: the two endings that are logged as blocked. */
  predicate DoneBlocked(r: Req) { r.phase.Done? && (r.phase.outcome.Sunk? || r.phase.outcome.Ipv6Off?) }

  ghost predicate BlockedLogsCount(cfg: Config, s: State) {
    cfg.logging ==> Count(s.submitted, SaysBlocked) == Count(s.requests, DoneBlocked)
  }

  lemma DoneBlockedAfter(cfg: Config, s: State, r: Req)
    ensures var r' := ReqAfter(cfg, s, r);
            && (cfg.logging ==>
                  (DoneBlocked(r') <==>
                   DoneBlocked(r) || (r.phase.Log? && (r.phase.outcome.Sunk? || r.phase.outcome.Ipv6Off?))))
            && (r.phase.Log? ==>
                  (LogFor(r, r.phase.outcome, s.now).action == Blocked <==>
                   r.phase.outcome.Sunk? || r.phase.outcome.Ipv6Off?))
  {}

  lemma NextBlockedLogsCount(cfg: Config, s: State, step: Step)
    requires BlockedLogsCount(cfg, s)
    ensures BlockedLogsCount(cfg, Next(cfg, s, step))
  {
    match step
    case Arrive(client, rawName, qtype) =>
      var r := Req(client, QueryName(rawName), qtype, s.now, CountClient);
      CountAppend(s.requests, r, DoneBlocked);
    case Advance(task) =>
      match task {
        case Request(id) =>
          if id < |s.requests| {
            var r := s.requests[id];
            DoneBlockedAfter(cfg, s, r);
            EffectQueues(cfg, s, id, r);
            CountUpdate(s.requests, id, ReqAfter(cfg, s, r), DoneBlocked);
            if r.phase.Log? {
              var x := Submitted.Submitted(id, LogFor(r, r.phase.outcome, s.now));
              CountAppend(s.submitted, x, SaysBlocked);
              assert SaysBlocked(x) <==> x.entry.action == Blocked;
            }
          }
        case Refresh(id) =>
      }
    case Reply(task, resolution) =>
      if task.Request? && task.id < |s.requests| && s.requests[task.id].phase == Upstream(Awaiting) {
        CountUpdate(s.requests, task.id, Next(cfg, s, step).requests[task.id], DoneBlocked);
      }
    case _ =>
  }

  // ----- theorems -----------------------------------------------------------------------------------------

  ghost predicate Kept(cfg: Config, s: State) {
    && Guarded(cfg, s) && StartedInPast(s) && OncePerRequest(cfg, s) && ContentsRight(cfg, s)
    && BlockedLogsCount(cfg, s)
    && forall k :: BalancedFor(s, k)
  }

  lemma InitKept(cfg: Config, matcher: Matcher, t0: nat)
    ensures Kept(cfg, Init(matcher, t0))
  {}

  lemma NextKept(cfg: Config, s: State, step: Step)
    requires Kept(cfg, s)
    ensures Kept(cfg, Next(cfg, s, step))
  {
    NextGuarded(cfg, s, step);
    NextStartedInPast(cfg, s, step);
    NextOnce(cfg, s, step);
    NextContentsRight(cfg, s, step);
    NextBlockedLogsCount(cfg, s, step);
    forall k ensures BalancedFor(Next(cfg, s, step), k) { NextBalanced(cfg, s, step, k); }
  }

  lemma {:induction false} RunKept(cfg: Config, matcher: Matcher, t0: nat, steps: seq<Step>)
    ensures Kept(cfg, Exec(cfg, Init(matcher, t0), steps))
  {
    if steps == [] {
      InitKept(cfg, matcher, t0);
    } else {
      RunKept(cfg, matcher, t0, steps[..|steps| - 1]);
      NextKept(cfg, Exec(cfg, Init(matcher, t0), steps[..|steps| - 1]), steps[|steps| - 1]);
    }
  }

  /** Request id has exactly one response, the one its outcome calls for, and with logging on exactly one log
      entry, formed from its outcome; with logging off, none. */
  ghost predicate AnsweredOnce(cfg: Config, s: State, id: nat)
    requires id < |s.requests| && s.requests[id].phase.Done?
  {
    && Count(s.sent, Keyed(SentFor, id)) == 1
    && Count(s.submitted, Keyed(SubmittedFor, id)) == (if cfg.logging then 1 else 0)
    && (forall j :: 0 <= j < |s.sent| && s.sent[j].id == id ==>
                      s.sent[j].response == ResponseFor(cfg, s.requests[id], s.requests[id].phase.outcome))
    && (forall j :: 0 <= j < |s.submitted| && s.submitted[j].id == id ==> EntryRight(s.now, s.requests, s.submitted[j]))
  }

  lemma KeptAnsweredOnce(cfg: Config, s: State, id: nat)
    requires Kept(cfg, s) && id < |s.requests| && s.requests[id].phase.Done?
    ensures AnsweredOnce(cfg, s, id)
  {
    assert Responded(s.requests[id]) && LogDone(cfg)(s.requests[id]) == cfg.logging;
    forall j | 0 <= j < |s.sent| && s.sent[j].id == id
      ensures s.sent[j].response == ResponseFor(cfg, s.requests[id], s.requests[id].phase.outcome)
    {
      assert ResponseRight(cfg, s.requests, s.sent[j]);
    }
  }

  /** In every run, every completed request was answered exactly once and logged as the path it took. */
  lemma {:induction false} CompletedRequestAnsweredOnce(cfg: Config, matcher: Matcher, t0: nat, steps: seq<Step>,
                                                        id: nat)
    ensures var s := Exec(cfg, Init(matcher, t0), steps);
            id < |s.requests| && s.requests[id].phase.Done? ==> AnsweredOnce(cfg, s, id)
  {
    var s := Exec(cfg, Init(matcher, t0), steps);
    RunKept(cfg, matcher, t0, steps);
    if id < |s.requests| && s.requests[id].phase.Done? { KeptAnsweredOnce(cfg, s, id); }
  }

  /** In every run and for every name and type, resolver calls plus refreshes spawned but not yet calling equal the
      misses that called plus the stale hits; and each stale hit has exactly one refresh, for its own key. */
  lemma {:induction false} UpstreamCallsAreConserved(cfg: Config, matcher: Matcher, t0: nat, steps: seq<Step>, k: Key,
                                                     id: nat)
    ensures var s := Exec(cfg, Init(matcher, t0), steps);
            && Count(s.calls, Keyed(Called, k)) + Count(s.refreshes, Keyed(Pending, k)) ==
               Count(s.requests, Keyed(Missed, k)) + Count(s.requests, Keyed(ServedStale, k))
            && (id < |s.requests| ==>
                  Count(s.refreshes, Keyed(RefreshFor, id)) == if StaleServed(s.requests[id]) then 1 else 0)
            && (forall j :: 0 <= j < |s.refreshes| && s.refreshes[j].origin == id ==>
                              id < |s.requests| && s.refreshes[j].key == s.requests[id].CacheKey())
  {
    RunKept(cfg, matcher, t0, steps);
    assert BalancedFor(Exec(cfg, Init(matcher, t0), steps), k);
  }

  lemma DoneBlockedSplit(requests: seq<Req>)
    requires AllDone(requests)
    ensures Count(requests, DoneBlocked) == Count(requests, BlockCounted) + Count(requests, Fated(AtIpv6))
  {
    forall r | r in requests
      ensures (DoneBlocked(r) <==> BlockCounted(r) || Fated(AtIpv6)(r)) && !(BlockCounted(r) && Fated(AtIpv6)(r))
    {
      assert r.phase.Done?;
    }
    CountSplit(requests, DoneBlocked, BlockCounted, Fated(AtIpv6));
  }

  lemma KeptBlockedLogs(cfg: Config, s: State)
    requires BlockedLogsCount(cfg, s) && cfg.logging && Quiet(s)
    requires s.counters.blocked == Count(s.requests, BlockCounted)
    ensures Count(s.submitted, SaysBlocked) == s.counters.blocked + Count(s.requests, Fated(AtIpv6))
  {
    DoneBlockedSplit(s.requests);
  }

  /** With logging on and no request in flight, the log has as many blocked entries as the blocked counter plus the
      queries refused because IPv6 is off. */
  lemma {:induction false} BlockedLogsMatchCounters(cfg: Config, matcher: Matcher, t0: nat, steps: seq<Step>)
    ensures var s := Exec(cfg, Init(matcher, t0), steps);
            cfg.logging && Quiet(s) && |s.requests| < U64 ==>
              Count(s.submitted, SaysBlocked) == s.counters.blocked + Count(s.requests, Fated(AtIpv6))
  {
    var s := Exec(cfg, Init(matcher, t0), steps);
    RunKept(cfg, matcher, t0, steps);
    CountersEqualRecount(cfg, matcher, t0, steps);
    if cfg.logging && Quiet(s) && |s.requests| < U64 {
      ScalarsExact(s.counters, s.requests);
      KeptBlockedLogs(cfg, s);
    }
  }
}
