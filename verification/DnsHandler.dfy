/** The request handler as the program it is: methods that update the cache, the blocklist cell, the counters, the
    outgoing responses and the log. Between any two accesses to shared state other tasks may run (`Await`); the
    handler is proved to take exactly the steps of the state machine, whatever they do. */
module DnsHandlers {
  import opened Prelude
  import opened Dns
  import opened QueryLog
  import opened HandlerModel
  import opened Stats
  import AppStates
  import Accounting
  import CacheSafety
  import ExactlyOnce
  import Gates
  import Ledger
  import Responses

  class Clock {
    var now: nat

    constructor (now: nat)
      ensures this.now == now
    {
      this.now := now;
    }
  }

  datatype Query = Query(client: string, name: string, qtype: RecordType, start: nat)

  datatype LogContext = LogContext(action: Action, source: Option<u8>, upstream: Option<string>, ttl: Option<nat>)

  function Elapsed(start: nat, now: nat): nat { if now < start then 0 else (now - start) / MILLISECOND }

  function EntryOf(q: Query, log: LogContext, now: nat): LogEntry {
    LogEntry(q.client, q.name, q.qtype, log.action, log.source, log.upstream, Elapsed(q.start, now), log.ttl)
  }

  /** The request that a query is, at some phase. */
  function ReqOf(q: Query, phase: Phase): Req { Req(q.client, q.name, q.qtype, q.start, phase) }

  function EntriesOf(submitted: seq<Submitted>): seq<LogEntry> {
    seq(|submitted|, i requires 0 <= i < |submitted| => submitted[i].entry)
  }

  /** How a request ends that got this from the resolver. */
  function OutcomeOf(resolution: Resolution): Outcome {
    match resolution
    case Resolved(rs, u) => FromUpstream(rs, u)
    case Failed(e) => NoAnswer(e)
  }

  /** A request's step that touches nothing shared. */
  predicate IsQuiet(p: Phase) {
    p.Ipv6Gate? || p.LocalGate? || p.PauseGate? || p.BlockGate? || p.Lookup? || p.Classify?
  }

  lemma QuietStep(cfg: Config, s: State, id: nat)
    requires id < |s.requests| && IsQuiet(s.requests[id].phase)
    ensures Next(cfg, s, Advance(Request(id))) ==
            s.(requests := s.requests[id := ReqAfter(cfg, s, s.requests[id])])
  {}

  /** A request's step that makes a count. */
  predicate IsCount(p: Phase) {
    p.CountClient? || p.CountDomain? || p.CountBlocked? || p.CountSource? || p.CountClientBlock? ||
    p.CountDomainBlock? || p.CountHit?
  }

  lemma CountStep(cfg: Config, s: State, id: nat)
    requires id < |s.requests| && IsCount(s.requests[id].phase)
    ensures Next(cfg, s, Advance(Request(id))) ==
            s.(counters := CountersAfter(s.counters, s.requests[id]),
               requests := s.requests[id := ReqAfter(cfg, s, s.requests[id])])
  {}

  lemma SendStep(cfg: Config, s: State, id: nat, o: Outcome)
    requires id < |s.requests| && s.requests[id].phase == Send(o)
    ensures Next(cfg, s, Advance(Request(id))) ==
            s.(sent := s.sent + [Sent.Sent(id, ResponseFor(cfg, s.requests[id], o))],
               requests := s.requests[id := s.requests[id].(phase := if cfg.logging then Log(o) else Done(o))])
  {}

  lemma LogStep(cfg: Config, s: State, id: nat, o: Outcome)
    requires id < |s.requests| && s.requests[id].phase == Log(o)
    ensures Next(cfg, s, Advance(Request(id))) ==
            s.(submitted := s.submitted + [Submitted.Submitted(id, LogFor(s.requests[id], o, s.now))],
               requests := s.requests[id := s.requests[id].(phase := Done(o))])
  {}

  lemma SpawnStep(cfg: Config, s: State, id: nat, h: Hit)
    requires id < |s.requests| && s.requests[id].phase == Spawn(h)
    ensures Next(cfg, s, Advance(Request(id))) ==
            s.(refreshes := s.refreshes + [Refresher(s.requests[id].CacheKey(), id, Calling)],
               requests := s.requests[id := s.requests[id].(phase := Send(FromCache(h)))])
  {}

  /** This request or refresh is here in `resolve_and_cache`, for this key. */
  ghost predicate TaskAt(s: State, task: Task, key: Key, rc: Rc) {
    match task
    case Request(id) => id < |s.requests| && s.requests[id].CacheKey() == key && s.requests[id].phase == Upstream(rc)
    case Refresh(id) => id < |s.refreshes| && s.refreshes[id].key == key && s.refreshes[id].rc == rc
  }

  /** s with that request or refresh moved on to rc. */
  ghost function Moved(s: State, task: Task, rc: Rc): State
    requires if task.Request? then task.id < |s.requests| else task.id < |s.refreshes|
  {
    match task
    case Request(id) => s.(requests := s.requests[id := s.requests[id].(phase := Upstream(rc))])
    case Refresh(id) => s.(refreshes := s.refreshes[id := s.refreshes[id].(rc := rc)])
  }

  /** After `resolve_and_cache`: a request goes on to answer with this, a refresh is over. */
  ghost predicate TaskEnded(s: State, task: Task, key: Key, resolution: Resolution) {
    match task
    case Request(id) =>
      id < |s.requests| && s.requests[id].CacheKey() == key && s.requests[id].phase == Send(OutcomeOf(resolution))
    case Refresh(id) => id < |s.refreshes| && s.refreshes[id].key == key && s.refreshes[id].rc == Finished
  }

  /** A request keeps what it was asked. */
  ghost predicate QueryKept(s: State, task: Task, before: State) {
    task.Request? && task.id < |before.requests| ==>
      task.id < |s.requests| &&
      s.requests[task.id] == before.requests[task.id].(phase := s.requests[task.id].phase)
  }

  ghost predicate SameRefreshKeys(s: State, s': State) {
    |s'.refreshes| == |s.refreshes| &&
    forall i :: 0 <= i < |s.refreshes| ==> s'.refreshes[i].key == s.refreshes[i].key
  }

  lemma CallStep(cfg: Config, s: State, task: Task, key: Key)
    requires TaskAt(s, task, key, Calling)
    ensures Next(cfg, s, Advance(task)) == Moved(s, task, Awaiting).(calls := s.calls + [key])
  {}

  lemma StampStep(cfg: Config, s: State, task: Task, key: Key, records: seq<Record>, upstream: string)
    requires TaskAt(s, task, key, Stamping(records, upstream))
    ensures Next(cfg, s, Advance(task)) == Moved(s, task, Inserting(MakeEntry(cfg, records, s.now), upstream))
  {}

  lemma InsertStep(cfg: Config, s: State, task: Task, key: Key, entry: Entry, upstream: string)
    requires TaskAt(s, task, key, Inserting(entry, upstream))
    ensures var s' := Next(cfg, s, Advance(task));
            && s' == s.(cache := s.cache[key := entry], cacheOps := s.cacheOps + [Insert(key, entry, task)],
                        requests := s'.requests, refreshes := s'.refreshes)
            && |s'.requests| == |s.requests| && SameRefreshKeys(s, s') && QueryKept(s', task, s)
            && TaskEnded(s', task, key, Resolved(entry.records, upstream))
  {}

  /** `DnsHandler::new`, the table of local records: one record per configured name that parses. */
  method BuildLocalRecords(cfg: Config) returns (localMap: map<string, seq<Record>>)
    ensures localMap == LocalTable(cfg)
  {
    localMap := map[];
    var rest := cfg.localRecords;
    while rest != map[]
      invariant rest.Keys <= cfg.localRecords.Keys
      invariant forall d :: d in localMap <==> d in cfg.localRecords && d !in rest && cfg.parses(d)
      invariant forall d :: d in localMap ==> localMap[d] == LocalTable(cfg)[d]
      decreases rest.Keys
    {
      var domain :| domain in rest;
      var records: seq<Record> := [];
      if cfg.parses(domain) {
        match cfg.localRecords[domain]
        case Ipv4(addr) => records := records + [Record(domain, cfg.minTtl, V4(addr))];
        case Ipv6(addr) => records := records + [Record(domain, cfg.minTtl, V6(addr))];
      }
      if records != [] {
        localMap := localMap[domain := records];
      }
      rest := rest - {domain};
    }
  }

  class DnsHandler {
    const cfg: Config
    const stats: StatsCollector
    const logger: QueryLogger
    const appState: AppStates.AppState
    const clock: Clock
    var localRecords: map<string, seq<Record>>
    var blocklist: Matcher
    var cache: map<Key, Entry>
    var accepted: nat           // requests taken in; the next one's response handle
    var outbox: seq<Sent>       // responses handed to the transport
    var spawned: seq<Key>       // background refreshes started

    ghost var trace: seq<Step>    // every step taken by any task since the handler was made
    ghost var states: seq<State>  // the states before, between and after them
    ghost var model: State        // the last of these

    ghost predicate OnRun()
      reads this
    {
      && IsRun(cfg, states, trace) && model == states[|trace|]
      && states[0] == Init(states[0].matcher, states[0].now)
    }

    /** The fields are the state that the run has led to. */
    ghost predicate Coupled()
      reads this, clock, stats, stats.blockedBySource, logger, appState
    {
      && localRecords == LocalTable(cfg)
      && clock.now == model.now && blocklist == model.matcher && cache == model.cache
      && appState.pausedUntil == model.pausedUntil && stats.View() == model.counters
      && accepted == |model.requests| && outbox == model.sent && logger.submitted == EntriesOf(model.submitted)
      && |spawned| == |model.refreshes|
      && forall i {:trigger spawned[i]} :: 0 <= i < |spawned| ==> spawned[i] == model.refreshes[i].key
    }

    ghost predicate Valid()
      reads this, clock, stats, stats.blockedBySource, logger, appState
    {
      stats.Valid() && logger.Valid() && appState.Valid() && OnRun() && Coupled()
    }

    constructor (cfg: Config, stats: StatsCollector, logger: QueryLogger, appState: AppStates.AppState, clock: Clock,
                 blocklist: Matcher)
      requires stats.Valid() && logger.Valid() && appState.Valid()
      requires stats.View() == NoCounts() && logger.submitted == [] && appState.pausedUntil == None
      ensures Valid() && this.cfg == cfg && trace == [] && model == Init(blocklist, clock.now)
    {
      var localMap := BuildLocalRecords(cfg);
      this.localRecords := localMap;
      this.cfg, this.stats, this.logger, this.appState, this.clock := cfg, stats, logger, appState, clock;
      this.blocklist := blocklist;
      this.cache, this.accepted, this.outbox, this.spawned := map[], 0, [], [];
      this.trace, this.model := [], Init(blocklist, clock.now);
      this.states := [Init(blocklist, clock.now)];
    }

    // ----- the run -----------------------------------------------------------------------------

    /** Records that a task's access to shared state, made by the surrounding code, is this step. */
    ghost method Take(step: Step)
      requires OnRun()
      modifies this`model, this`trace, this`states
      ensures OnRun() && model == Next(cfg, old(model), step)
      ensures trace == old(trace) + [step] && states[0] == old(states)[0]
    {
      model, trace, states := Next(cfg, model, step), trace + [step], states + [Next(cfg, model, step)];
    }

    /** Request id is this query at this phase. */
    ghost predicate At(id: nat, q: Query, phase: Phase)
      reads this`model
    {
      id < |model.requests| && model.requests[id] == ReqOf(q, phase)
    }

    /** A quiet step of request id. */
    ghost method Pass(id: nat, q: Query, phase: Phase)
      requires Valid() && At(id, q, phase) && IsQuiet(phase)
      modifies this`model, this`trace, this`states
      ensures Valid() && old(trace) <= trace
      ensures model.requests == old(model.requests)[id := ReqAfter(cfg, old(model), ReqOf(q, phase))]
    {
      QuietStep(cfg, model, id);
      Take(Advance(Request(id)));
    }

    /** A counting step of request id, after the collector has been updated. */
    ghost method Tallied(id: nat, q: Query, phase: Phase)
      requires OnRun() && At(id, q, phase) && IsCount(phase)
      modifies this`model, this`trace, this`states
      ensures OnRun() && old(trace) <= trace
      ensures model == old(model).(counters := CountersAfter(old(model).counters, ReqOf(q, phase)),
                                   requests := old(model).requests[id := ReqAfter(cfg, old(model), ReqOf(q, phase))])
    {
      CountStep(cfg, model, id);
      Take(Advance(Request(id)));
    }

    /** What this request or refresh has put into the cache so far. */
    ghost function Inserted(task: Task): seq<Entry>
      reads this`model
    {
      Ledger.InsertedBy(model.cacheOps, task)
    }

    ghost predicate Unmoved(task: Task, before: State, after: State) {
      match task
      case Request(id) => id < |before.requests| ==> id < |after.requests| && after.requests[id] == before.requests[id]
      case Refresh(id) =>
        id < |before.refreshes| ==> id < |after.refreshes| && after.refreshes[id] == before.refreshes[id]
    }

    /** Any number of steps of other tasks, of the environment and of the clock. (This body lets time pass and no
        more; callers may rely on nothing but the contract, which allows every interference.) */
    method Await(ghost task: Task)
      requires Valid()
      modifies this, clock, stats, stats.blockedBySource, stats.upstreamTotalMs, stats.upstreamCount, logger, appState
      ensures Valid() && old(trace) <= trace && Unmoved(task, old(model), model)
      ensures Inserted(task) == old(Inserted(task)) && old(clock.now) <= clock.now
      ensures old(accepted) <= accepted
    {
      var elapsed: int := *;
      if elapsed > 0 {
        clock.now := clock.now + elapsed;
        Take(Tick(elapsed));
      }
    }

    // ----- responses and log ---------------------------------------------------------------------

    method SendResponse(handle: nat, ghost q: Query, response: Response, ghost o: Outcome)
      requires Valid() && At(handle, q, Send(o)) && response == ResponseFor(cfg, ReqOf(q, Send(o)), o)
      modifies this`outbox, this`model, this`trace, this`states
      ensures Valid() && old(trace) <= trace && At(handle, q, if cfg.logging then Log(o) else Done(o))
      ensures outbox == old(outbox) + [Sent.Sent(handle, response)]
    {
      outbox := outbox + [Sent.Sent(handle, response)];
      SendStep(cfg, model, handle, o);
      Take(Advance(Request(handle)));
    }

    method LogQuery(ghost id: nat, q: Query, log: LogContext, ghost o: Outcome)
      requires Valid() && At(id, q, Log(o))
      requires EntryOf(q, log, clock.now) == LogFor(ReqOf(q, Log(o)), o, clock.now)
      modifies this`model, this`trace, this`states, logger
      ensures Valid() && old(trace) <= trace && At(id, q, Done(o))
    {
      var entry := LogEntry(q.client, q.name, q.qtype, log.action, log.source, log.upstream,
                            Elapsed(q.start, clock.now), log.ttl);
      logger.Log(entry);
      ghost var x := Submitted.Submitted(id, entry);
      EntriesAppend(model.submitted, x);
      LogStep(cfg, model, id, o);
      Take(Advance(Request(id)));
    }

    lemma EntriesAppend(submitted: seq<Submitted>, x: Submitted)
      ensures EntriesOf(submitted + [x]) == EntriesOf(submitted) + [x.entry]
    {}

    /** The log context that an outcome calls for. */
    static function ContextFor(o: Outcome): LogContext {
      match o
      case Ipv6Off => LogContext(Blocked, None, Some("ipv6-disabled"), None)
      case FromLocal(_) => LogContext(Action.Local, None, Some("local-config"), None)
      case Sunk(source) => LogContext(Blocked, Some(source), None, None)
      case FromCache(hit) => LogContext(Cached, None, None, Some(hit.ttl))
      case FromUpstream(_, u) => LogContext(Forwarded, None, Some(u), None)
      case NoAnswer(e) => LogContext(Forwarded, None, Some("error: " + e), None)
    }

    static lemma ContextMakesEntry(q: Query, o: Outcome, p: Phase, now: nat)
      ensures EntryOf(q, ContextFor(o), now) == LogFor(ReqOf(q, p), o, now)
    {}

    /** Sends the response and then logs, if logging is on. */
    method ServeRecords(handle: nat, q: Query, response: Response, log: LogContext, ghost o: Outcome)
      requires Valid() && At(handle, q, Send(o))
      requires response == ResponseFor(cfg, ReqOf(q, Send(o)), o) && log == ContextFor(o)
      modifies this, clock, stats, stats.blockedBySource, stats.upstreamTotalMs, stats.upstreamCount, logger, appState
      ensures Valid() && old(trace) <= trace && At(handle, q, Done(o))
    {
      SendResponse(handle, q, response, o);
      Await(Request(handle));
      if cfg.logging {
        ContextMakesEntry(q, o, Log(o), clock.now);
        LogQuery(handle, q, log, o);
        Await(Request(handle));
      }
    }

    // ----- the gates -------------------------------------------------------------------------------

    /** The four block counts, each its own access to the collector (`inc_blocked_by_source` is two). */
    method CountBlock(ghost id: nat, q: Query, sourceId: u8)
      requires Valid() && At(id, q, CountBlocked(sourceId))
      modifies this, clock, stats, stats.blockedBySource, stats.upstreamTotalMs, stats.upstreamCount, logger, appState
      ensures Valid() && old(trace) <= trace && At(id, q, Send(Sunk(sourceId)))
    {
      IncBlocked(id, q, sourceId);
      Await(Request(id));
      IncSource(id, q, sourceId);
      Await(Request(id));
      IncClientBlock(id, q, sourceId);
      Await(Request(id));
      IncDomainBlock(id, q, sourceId);
    }

    method IncBlocked(ghost id: nat, ghost q: Query, ghost sourceId: u8)
      requires Valid() && At(id, q, CountBlocked(sourceId))
      modifies this`model, this`trace, this`states, stats`blockedQueries
      ensures Valid() && old(trace) <= trace && At(id, q, CountSource(sourceId))
    {
      stats.IncBlocked();
      Tallied(id, q, CountBlocked(sourceId));
    }

    method IncSource(ghost id: nat, ghost q: Query, sourceId: u8)
      requires Valid() && At(id, q, CountSource(sourceId))
      modifies this`model, this`trace, this`states, stats.blockedBySource
      ensures Valid() && old(trace) <= trace && At(id, q, CountClientBlock(sourceId))
    {
      stats.IncSource(sourceId);
      Tallied(id, q, CountSource(sourceId));
    }

    method IncClientBlock(ghost id: nat, q: Query, ghost sourceId: u8)
      requires Valid() && At(id, q, CountClientBlock(sourceId))
      modifies this`model, this`trace, this`states, stats`clientBlocks
      ensures Valid() && old(trace) <= trace && At(id, q, CountDomainBlock(sourceId))
    {
      stats.IncClientBlock(q.client);
      Tallied(id, q, CountClientBlock(sourceId));
    }

    method IncDomainBlock(ghost id: nat, q: Query, ghost sourceId: u8)
      requires Valid() && At(id, q, CountDomainBlock(sourceId))
      modifies this`model, this`trace, this`states, stats`domainBlocks
      ensures Valid() && old(trace) <= trace && At(id, q, Send(Sunk(sourceId)))
    {
      stats.IncDomainBlock(q.name);
      Tallied(id, q, CountDomainBlock(sourceId));
    }

    /** Counts the block and answers 0.0.0.0, :: or NXDOMAIN. */
    method ServeBlocked(handle: nat, q: Query, sourceId: u8) returns (response: Response)
      requires Valid() && At(handle, q, CountBlocked(sourceId))
      modifies this, clock, stats, stats.blockedBySource, stats.upstreamTotalMs, stats.upstreamCount, logger, appState
      ensures Valid() && old(trace) <= trace && At(handle, q, Done(Sunk(sourceId)))
      ensures Responses.Fits(cfg, ReqOf(q, Done(Sunk(sourceId))), Sunk(sourceId), response)
    {
      CountBlock(handle, q, sourceId);
      Await(Request(handle));
      var name := if cfg.parses(q.name) then q.name else "";
      match q.qtype {
        case A => response := Response(NoError, [Record(name, 60, V4("0.0.0.0"))]);
        case AAAA => response := Response(NoError, [Record(name, 60, V6("::"))]);
        case Other(_) => response := Response(NXDomain, []);
      }
      ServeRecords(handle, q, response, LogContext(Blocked, Some(sourceId), None, None), Sunk(sourceId));
    }

    /** Answers from the local table, or leaves the request to the next gate. */
    method HandleLocalRecords(handle: nat, q: Query) returns (answered: Option<Response>)
      requires Valid() && At(handle, q, LocalGate)
      modifies this, clock, stats, stats.blockedBySource, stats.upstreamTotalMs, stats.upstreamCount, logger, appState
      ensures Valid() && old(trace) <= trace
      ensures answered.None? ==> At(handle, q, PauseGate)
      ensures answered.Some? ==> Completed(handle, q, answered.value)
    {
      Pass(handle, q, LocalGate);
      if q.name in localRecords {
        var records := localRecords[q.name];
        if records != [] && records[0].RecordType() == q.qtype {
          var response := Response(NoError, records);
          ServeRecords(handle, q, response, LogContext(Action.Local, None, Some("local-config"), None),
                       FromLocal(records));
          return Some(response);
        }
      }
      answered := None;
    }

    /** The request is done, and this is the response its outcome calls for. */
    ghost predicate Completed(id: nat, q: Query, response: Response)
      reads this
    {
      && id < |model.requests| && model.requests[id].phase.Done?
      && model.requests[id] == ReqOf(q, model.requests[id].phase)
      && Responses.Fits(cfg, model.requests[id], model.requests[id].phase.outcome, response)
    }

    /** Reads the pause cell and the clock, then the matcher. */
    method CheckBlocklist(ghost id: nat, q: Query) returns (found: Option<u8>)
      requires Valid() && At(id, q, PauseGate)
      modifies this, clock, stats, stats.blockedBySource, stats.upstreamTotalMs, stats.upstreamCount, logger, appState
      ensures Valid() && old(trace) <= trace
      ensures At(id, q, if found.Some? then CountBlocked(found.value) else Lookup)
      ensures found == if AppStates.PausedBy(old(appState.history), old(clock.now)) then None else blocklist(q.name)
    {
      var active := appState.IsBlockingActive(clock.now);
      Pass(id, q, PauseGate);
      if !active {
        return None;
      }
      Await(Request(id));
      found := blocklist(q.name);
      Pass(id, q, BlockGate);
    }

    method HandleBlockedRequest(handle: nat, q: Query) returns (answered: Option<Response>)
      requires Valid() && At(handle, q, PauseGate)
      modifies this, clock, stats, stats.blockedBySource, stats.upstreamTotalMs, stats.upstreamCount, logger, appState
      ensures Valid() && old(trace) <= trace
      ensures answered.None? ==> At(handle, q, Lookup)
      ensures answered.Some? ==> Completed(handle, q, answered.value) && model.requests[handle].phase.outcome.Sunk?
      ensures AppStates.PausedBy(old(appState.history), old(clock.now)) ==> answered.None?
    {
      var found := CheckBlocklist(handle, q);
      if found.None? {
        return None;
      }
      Await(Request(handle));
      var response := ServeBlocked(handle, q, found.value);
      answered := Some(response);
    }

    // ----- the cache -------------------------------------------------------------------------------

    /** Reads the entry, then the clock. */
    method CheckCache(ghost id: nat, q: Query) returns (hit: Option<Hit>)
      requires Valid() && At(id, q, Lookup)
      modifies this, clock, stats, stats.blockedBySource, stats.upstreamTotalMs, stats.upstreamCount, logger, appState
      ensures Valid() && old(trace) <= trace
      ensures At(id, q, if hit.Some? then CountHit(hit.value) else Upstream(Calling))
      ensures hit == if Key(q.name, q.qtype) in old(cache) then Classified(old(cache)[Key(q.name, q.qtype)], clock.now)
                     else None
    {
      var key := Key(q.name, q.qtype);
      var found := if key in cache then Some(cache[key]) else None;
      Pass(id, q, Lookup);
      if found.None? {
        return None;
      }
      var entry := found.value;
      Await(Request(id));
      var now := clock.now;
      Pass(id, q, Classify(entry));
      hit := ClassifyEntry(entry, now);
    }

    /** Fresh, stale or expired. */
    static method ClassifyEntry(entry: Entry, now: nat) returns (hit: Option<Hit>)
      ensures hit == Classified(entry, now)
    {
      var ttl := if entry.validUntil > now then (entry.validUntil - now) / SECOND else 0;
      if now < entry.validUntil {
        hit := Some(Hit(entry.records, false, ttl, now));
      } else if now < entry.staleUntil {
        hit := Some(Hit(entry.records, true, ttl, now));
      } else {
        hit := None;
      }
    }

    method CountCacheHit(ghost id: nat, q: Query, ghost h: Hit)
      requires Valid() && At(id, q, CountHit(h))
      modifies this, clock, stats, stats.blockedBySource, stats.upstreamTotalMs, stats.upstreamCount, logger, appState
      ensures Valid() && old(trace) <= trace && At(id, q, if h.stale then Spawn(h) else Send(FromCache(h)))
    {
      stats.IncCacheHit();
      Tallied(id, q, CountHit(h));
    }

    /** Starts a background refresh of the query's own key. */
    method SpawnRefresh(ghost id: nat, q: Query, ghost h: Hit)
      requires Valid() && At(id, q, Spawn(h))
      modifies this`spawned, this`model, this`trace, this`states
      ensures Valid() && old(trace) <= trace && At(id, q, Send(FromCache(h)))
      ensures spawned == old(spawned) + [Key(q.name, q.qtype)]
    {
      spawned := spawned + [Key(q.name, q.qtype)];
      SpawnStep(cfg, model, id, h);
      Take(Advance(Request(id)));
    }

    /** A stale hit starts a refresh. */
    method RefreshIfStale(ghost id: nat, q: Query, h: Hit)
      requires Valid() && At(id, q, if h.stale then Spawn(h) else Send(FromCache(h)))
      modifies this, clock, stats, stats.blockedBySource, stats.upstreamTotalMs, stats.upstreamCount, logger, appState
      ensures Valid() && old(trace) <= trace && At(id, q, Send(FromCache(h)))
    {
      if h.stale {
        SpawnRefresh(id, q, h);
        Await(Request(id));
      }
    }

    /** Counts the hit, starts a refresh if it is stale, and serves it. */
    method ServeHit(handle: nat, q: Query, h: Hit) returns (response: Response)
      requires Valid() && At(handle, q, CountHit(h))
      modifies this, clock, stats, stats.blockedBySource, stats.upstreamTotalMs, stats.upstreamCount, logger, appState
      ensures Valid() && old(trace) <= trace && At(handle, q, Done(FromCache(h)))
      ensures response == Response(NoError, h.records)
    {
      CountCacheHit(handle, q, h);
      Await(Request(handle));
      RefreshIfStale(handle, q, h);
      response := Response(NoError, h.records);
      ServeRecords(handle, q, response, LogContext(Cached, None, None, Some(h.ttl)), FromCache(h));
    }

    method HandleCachedResponse(handle: nat, q: Query) returns (answered: Option<Response>)
      requires Valid() && At(handle, q, Lookup)
      modifies this, clock, stats, stats.blockedBySource, stats.upstreamTotalMs, stats.upstreamCount, logger, appState
      ensures Valid() && old(trace) <= trace
      ensures answered.None? ==> At(handle, q, Upstream(Calling))
      ensures answered.Some? ==> Completed(handle, q, answered.value)
    {
      var hit := CheckCache(handle, q);
      if hit.None? {
        return None;
      }
      Await(Request(handle));
      var response := ServeHit(handle, q, hit.value);
      answered := Some(response);
    }

    // ----- upstream ----------------------------------------------------------------------------------

    ghost predicate Resolving(task: Task, key: Key, rc: Rc)
      reads this`model
    {
      TaskAt(model, task, key, rc)
    }

    ghost predicate ResolvedTo(task: Task, key: Key, resolution: Resolution)
      reads this`model
    {
      TaskEnded(model, task, key, resolution)
    }

    ghost predicate SameQuery(task: Task, before: State)
      reads this`model
    {
      QueryKept(model, task, before)
    }

    /** The query leaves for the resolver. */
    ghost method StartCall(task: Task, key: Key)
      requires Valid() && Resolving(task, key, Calling)
      modifies this`model, this`trace, this`states
      ensures Valid() && old(trace) <= trace && SameQuery(task, old(model)) && Resolving(task, key, Awaiting)
      ensures Inserted(task) == old(Inserted(task))
    {
      CallStep(cfg, model, task, key);
      Take(Advance(task));
    }

    /** The resolver's reply, whatever it is; the records are filtered at once. */
    method TakeReply(ghost task: Task, ghost key: Key) returns (reply: Resolution)
      requires Valid() && Resolving(task, key, Awaiting)
      modifies this`model, this`trace, this`states
      ensures Valid() && old(trace) <= trace && SameQuery(task, old(model))
      ensures reply.Failed? ==> ResolvedTo(task, key, reply)
      ensures reply.Resolved? ==> Resolving(task, key, Stamping(reply.records, reply.upstream))
      ensures Inserted(task) == old(Inserted(task)) && old(clock.now) <= clock.now
    {
      reply := *;
      Take(Reply(task, reply));
      if reply.Resolved? {
        var records := if cfg.disableIpv6 then WithoutAAAA(reply.records) else reply.records;
        reply := Resolved(records, reply.upstream);
      }
    }

    method CallResolver(ghost task: Task, ghost key: Key) returns (reply: Resolution)
      requires Valid() && Resolving(task, key, Calling)
      modifies this, clock, stats, stats.blockedBySource, stats.upstreamTotalMs, stats.upstreamCount, logger, appState
      ensures Valid() && old(trace) <= trace && SameQuery(task, old(model))
      ensures reply.Failed? ==> ResolvedTo(task, key, reply)
      ensures reply.Resolved? ==> Resolving(task, key, Stamping(reply.records, reply.upstream))
      ensures Inserted(task) == old(Inserted(task)) && old(clock.now) <= clock.now
    {
      StartCall(task, key);
      Await(task);
      reply := TakeReply(task, key);
    }

    /** Reads the clock for the two deadlines. */
    method Stamp(ghost task: Task, ghost key: Key, records: seq<Record>, ghost upstream: string) returns (entry: Entry)
      requires Valid() && Resolving(task, key, Stamping(records, upstream))
      modifies this`model, this`trace, this`states
      ensures Valid() && old(trace) <= trace && SameQuery(task, old(model))
      ensures entry == MakeEntry(cfg, records, clock.now) && Resolving(task, key, Inserting(entry, upstream))
      ensures entry.records == records && entry.staleUntil == entry.validUntil + cfg.graceSecs * SECOND
      ensures forall now: nat :: now < entry.validUntil <==> CacheSafety.Lives(cfg, records, clock.now, now)
      ensures Inserted(task) == old(Inserted(task))
    {
      var effectiveTtl := if records != [] then Max(MinTtl(records), cfg.minTtl) else cfg.minTtl;
      var validUntil := clock.now + effectiveTtl * SECOND;
      entry := Entry(records, validUntil, validUntil + cfg.graceSecs * SECOND);
      assert entry == MakeEntry(cfg, records, model.now);
      forall now: nat ensures now < entry.validUntil <==> CacheSafety.Lives(cfg, records, clock.now, now) {
        CacheSafety.LivesForItsLifetime(cfg, records, clock.now, now);
      }
      StampStep(cfg, model, task, key, records, upstream);
      Take(Advance(task));
    }

    method InsertEntry(ghost task: Task, key: Key, entry: Entry, ghost upstream: string)
      requires Valid() && Resolving(task, key, Inserting(entry, upstream))
      modifies this`cache, this`model, this`trace, this`states
      ensures Valid() && old(trace) <= trace && SameQuery(task, old(model))
      ensures cache == old(cache)[key := entry] && ResolvedTo(task, key, Resolved(entry.records, upstream))
      ensures Inserted(task) == old(Inserted(task)) + [entry]
    {
      cache := cache[key := entry];
      TakeInsert(task, key, entry, upstream);
    }

    ghost method TakeInsert(task: Task, key: Key, entry: Entry, upstream: string)
      requires OnRun() && Resolving(task, key, Inserting(entry, upstream))
      modifies this`model, this`trace, this`states
      ensures OnRun() && old(trace) <= trace && SameQuery(task, old(model)) && SameRefreshKeys(old(model), model)
      ensures model == old(model).(cache := old(model).cache[key := entry], cacheOps := model.cacheOps,
                                   requests := model.requests, refreshes := model.refreshes)
      ensures |model.requests| == |old(model).requests| && ResolvedTo(task, key, Resolved(entry.records, upstream))
      ensures Inserted(task) == old(Inserted(task)) + [entry]
    {
      Ledger.InsertedAppend(model.cacheOps, Insert(key, entry, task), task);
      InsertStep(cfg, model, task, key, entry, upstream);
      Take(Advance(task));
    }

    /** This request or refresh has put in one entry since, of these records, stamped since. */
    ghost predicate InsertedOne(task: Task, before: seq<Entry>, records: seq<Record>, earliest: nat)
      reads this`model, clock
    {
      exists stamp: nat :: earliest <= stamp <= clock.now && Inserted(task) == before + [MakeEntry(cfg, records, stamp)]
    }

    /** Stamps the records and, some time later, inserts them. */
    method StampAndInsert(ghost task: Task, key: Key, records: seq<Record>, ghost upstream: string)
      requires Valid() && Resolving(task, key, Stamping(records, upstream))
      modifies this, clock, stats, stats.blockedBySource, stats.upstreamTotalMs, stats.upstreamCount, logger, appState
      ensures Valid() && old(trace) <= trace && SameQuery(task, old(model))
      ensures ResolvedTo(task, key, Resolved(records, upstream))
      ensures InsertedOne(task, old(Inserted(task)), records, old(clock.now))
    {
      ghost var stamp := clock.now;
      var entry := Stamp(task, key, records, upstream);
      Await(task);
      InsertEntry(task, key, entry, upstream);
    }

    /** For a request or a refresh, whatever others do meanwhile: ask, filter, stamp, insert. A success inserts exactly
        one entry, of its records and stamped on the way; an error inserts nothing. */
    method ResolveAndCache(ghost task: Task, name: string, qtype: RecordType) returns (resolution: Resolution)
      requires Valid() && Resolving(task, Key(name, qtype), Calling)
      modifies this, clock, stats, stats.blockedBySource, stats.upstreamTotalMs, stats.upstreamCount, logger, appState
      ensures Valid() && old(trace) <= trace && SameQuery(task, old(model))
      ensures ResolvedTo(task, Key(name, qtype), resolution)
      ensures resolution.Resolved? ==> InsertedOne(task, old(Inserted(task)), resolution.records, old(clock.now))
      ensures resolution.Failed? ==> Inserted(task) == old(Inserted(task))
    {
      var key := Key(name, qtype);
      resolution := CallResolver(task, key);
      if resolution.Failed? {
        return;
      }
      Await(task);
      StampAndInsert(task, key, resolution.records, resolution.upstream);
    }

    method ResolveAndServe(handle: nat, q: Query) returns (response: Response)
      requires Valid() && At(handle, q, Upstream(Calling))
      modifies this, clock, stats, stats.blockedBySource, stats.upstreamTotalMs, stats.upstreamCount, logger, appState
      ensures Valid() && old(trace) <= trace && Completed(handle, q, response)
    {
      var resolution := ResolveAndCache(Request(handle), q.name, q.qtype);
      Await(Request(handle));
      response := ServeResolution(handle, q, resolution);
    }

    method ServeResolution(handle: nat, q: Query, resolution: Resolution) returns (response: Response)
      requires Valid() && At(handle, q, Send(OutcomeOf(resolution)))
      modifies this, clock, stats, stats.blockedBySource, stats.upstreamTotalMs, stats.upstreamCount, logger, appState
      ensures Valid() && old(trace) <= trace && Completed(handle, q, response)
    {
      match resolution {
        case Resolved(records, upstream) =>
          response := Response(NoError, records);
          ServeRecords(handle, q, response, LogContext(Forwarded, None, Some(upstream), None),
                       FromUpstream(records, upstream));
        case Failed(e) =>
          response := Response(ServFail, []);
          ServeRecords(handle, q, response, LogContext(Forwarded, None, Some("error: " + e), None), NoAnswer(e));
      }
    }

    /** A background refresh from spawn to finish; its outcome reaches nobody but the cache, and that only if it is a
        success. */
    method RunRefresh(id: nat) returns (resolution: Resolution)
      requires Valid() && id < |model.refreshes| && model.refreshes[id].rc == Calling
      modifies this, clock, stats, stats.blockedBySource, stats.upstreamTotalMs, stats.upstreamCount, logger, appState
      ensures Valid() && old(trace) <= trace
      ensures id < |model.refreshes| && model.refreshes[id].key == old(model.refreshes[id].key)
      ensures model.refreshes[id].rc == Finished
      ensures resolution.Resolved? ==>
                InsertedOne(Refresh(id), old(Inserted(Refresh(id))), resolution.records, old(clock.now))
      ensures resolution.Failed? ==> Inserted(Refresh(id)) == old(Inserted(Refresh(id)))
    {
      var key := spawned[id];
      resolution := ResolveAndCache(Refresh(id), key.name, key.qtype);
    }

    // ----- control and requests --------------------------------------------------------------------------

    /** Swaps the blocklist in one step. */
    method UpdateBlocklist(newBlocklist: Matcher)
      requires Valid()
      modifies this`blocklist, this`model, this`trace, this`states
      ensures Valid() && trace == old(trace) + [Swap(newBlocklist)]
      ensures blocklist == newBlocklist && model == old(model).(matcher := newBlocklist)
    {
      blocklist := newBlocklist;
      Take(Swap(newBlocklist));
    }

    /** Counts the query and takes its response handle. */
    method Arrival(client: string, rawName: string, qtype: RecordType) returns (handle: nat, ghost q: Query)
      requires Valid()
      modifies this`accepted, this`model, this`trace, this`states, stats`totalQueries
      ensures Valid() && old(trace) <= trace && At(handle, q, CountClient)
      ensures handle == old(accepted) && accepted == old(accepted) + 1
      ensures q.client == client && q.name == QueryName(rawName) && q.qtype == qtype
    {
      stats.IncQueries();
      handle := accepted;
      accepted := accepted + 1;
      q := Query(client, QueryName(rawName), qtype, clock.now);
      Take(Arrive(client, rawName, qtype));
    }

    method CountClientQuery(ghost handle: nat, ghost q: Query, client: string)
      requires Valid() && At(handle, q, CountClient) && q.client == client
      modifies this`model, this`trace, this`states, stats`clientQueries
      ensures Valid() && old(trace) <= trace && At(handle, q, CountDomain)
    {
      stats.IncClientQuery(client);
      Tallied(handle, q, CountClient);
    }

    /** `get_query_info` and the domain count. */
    method ReadQuery(ghost handle: nat, ghost arrived: Query, client: string, rawName: string, qtype: RecordType)
      returns (q: Query)
      requires Valid() && At(handle, arrived, CountDomain)
      requires arrived.client == client && arrived.name == QueryName(rawName) && arrived.qtype == qtype
      modifies this`model, this`trace, this`states, stats`domainQueries
      ensures Valid() && old(trace) <= trace && At(handle, q, Ipv6Gate)
      ensures q == arrived.(start := clock.now)
    {
      q := Query(client, QueryName(rawName), qtype, clock.now);
      stats.IncDomainQuery(q.name);
      Tallied(handle, arrived, CountDomain);
    }

    /** Takes a request in, makes its query counts and reads off the query. */
    method Accept(client: string, rawName: string, qtype: RecordType) returns (handle: nat, q: Query)
      requires Valid()
      modifies this, clock, stats, stats.blockedBySource, stats.upstreamTotalMs, stats.upstreamCount, logger, appState
      ensures Valid() && old(trace) <= trace && At(handle, q, Ipv6Gate) && handle == old(accepted)
      ensures q.client == client && q.name == QueryName(rawName) && q.qtype == qtype
    {
      ghost var arrived;
      handle, arrived := Arrival(client, rawName, qtype);
      Await(Request(handle));
      CountClientQuery(handle, arrived, client);
      Await(Request(handle));
      q := ReadQuery(handle, arrived, client, rawName, qtype);
    }

    /** The cache, then upstream. */
    method AnswerFromCacheOrUpstream(handle: nat, q: Query) returns (response: Response)
      requires Valid() && At(handle, q, Lookup)
      modifies this, clock, stats, stats.blockedBySource, stats.upstreamTotalMs, stats.upstreamCount, logger, appState
      ensures Valid() && old(trace) <= trace && Completed(handle, q, response)
    {
      var answered := HandleCachedResponse(handle, q);
      if answered.Some? {
        return answered.value;
      }
      Await(Request(handle));
      response := ResolveAndServe(handle, q);
    }

    /** Local records, then the blocklist, then the rest. */
    method PassGates(handle: nat, q: Query) returns (response: Response)
      requires Valid() && At(handle, q, LocalGate)
      modifies this, clock, stats, stats.blockedBySource, stats.upstreamTotalMs, stats.upstreamCount, logger, appState
      ensures Valid() && old(trace) <= trace && Completed(handle, q, response)
    {
      var answered := HandleLocalRecords(handle, q);
      if answered.Some? {
        return answered.value;
      }
      Await(Request(handle));
      answered := HandleBlockedRequest(handle, q);
      if answered.Some? {
        return answered.value;
      }
      Await(Request(handle));
      response := AnswerFromCacheOrUpstream(handle, q);
    }

    method RefuseIpv6(handle: nat, q: Query) returns (response: Response)
      requires Valid() && At(handle, q, Send(Ipv6Off))
      modifies this, clock, stats, stats.blockedBySource, stats.upstreamTotalMs, stats.upstreamCount, logger, appState
      ensures Valid() && old(trace) <= trace && Completed(handle, q, response)
    {
      response := Response(NoError, []);
      ServeRecords(handle, q, response, LogContext(Blocked, None, Some("ipv6-disabled"), None), Ipv6Off);
    }

    /** One request from arrival to completion. */
    method HandleRequest(client: string, rawName: string, qtype: RecordType)
      returns (response: Response, handle: nat, q: Query)
      requires Valid()
      modifies this, clock, stats, stats.blockedBySource, stats.upstreamTotalMs, stats.upstreamCount, logger, appState
      ensures Valid() && old(trace) <= trace
      ensures handle == old(accepted)  // a request that was not there before
      ensures q.client == client && q.name == QueryName(rawName) && q.qtype == qtype
      ensures Completed(handle, q, response)
      ensures model.requests[handle].phase.outcome.FromLocal? ==>
                Responses.LocalAnswer(cfg, model.requests[handle], response.answers)
    {
      handle, q := Accept(client, rawName, qtype);
      Await(Request(handle));
      response := PassAllGates(handle, q);
      ModelIsReached();
      Responses.LocalOutcome(cfg, states[0].matcher, states[0].now, trace, handle);
    }

    method PassAllGates(handle: nat, q: Query) returns (response: Response)
      requires Valid() && At(handle, q, Ipv6Gate)
      modifies this, clock, stats, stats.blockedBySource, stats.upstreamTotalMs, stats.upstreamCount, logger, appState
      ensures Valid() && old(trace) <= trace && Completed(handle, q, response)
    {
      Pass(handle, q, Ipv6Gate);
      if cfg.disableIpv6 && q.qtype == AAAA {
        response := RefuseIpv6(handle, q);
      } else {
        Await(Request(handle));
        response := PassGates(handle, q);
      }
    }

    // ----- what the run theorems say of the running handler --------------------------------------------------

    lemma ModelIsReached()
      requires OnRun()
      ensures model == Exec(cfg, Init(states[0].matcher, states[0].now), trace)
    {
      RunIsExec(cfg, states, trace);
    }

    /** At every moment of the handler's life: its real cache holds only stamped answers and its entries are
        the latest surviving inserts; with IPv6 disabled nothing it has sent or stored is AAAA; its real
        counters equal the recount; and responses, log entries, refreshes and upstream calls balance. */
    lemma HandlerIsSafe()
      requires Valid()
      ensures forall k :: k in cache ==> CacheSafety.Stamped(cfg, model, k, cache[k])
      ensures forall k :: CacheSafety.LookupIn(cache, k) == CacheSafety.Scan(model.cacheOps, k)
      ensures cfg.disableIpv6 ==> Gates.NoIpv6(model)
      ensures cfg.disableIpv6 ==> forall i :: 0 <= i < |outbox| ==> Gates.Clean(outbox[i].response.answers)
      ensures Accounting.Recounted(stats.View(), model.requests)
      ensures ExactlyOnce.Kept(cfg, model)
      ensures forall i: nat :: i < |logger.sinks| ==> Offered(OpsOf(logger.ops, i)) == EntriesOf(model.submitted)
      ensures forall j :: 0 <= j < |outbox| ==> Responses.SentFits(cfg, model.requests, outbox[j])
    {
      var matcher, t0 := states[0].matcher, states[0].now;
      ModelIsReached();
      CacheSafety.RunSound(cfg, matcher, t0, trace);
      CacheSafety.LookupIsLatestInsert(cfg, matcher, t0, trace);
      if cfg.disableIpv6 { Gates.Ipv6NeverLeaks(cfg, matcher, t0, trace); }
      Accounting.CountersEqualRecount(cfg, matcher, t0, trace);
      ExactlyOnce.RunKept(cfg, matcher, t0, trace);
      forall j | 0 <= j < |outbox| ensures Responses.SentFits(cfg, model.requests, outbox[j]) {
        Responses.EveryResponseFits(cfg, matcher, t0, trace, j);
      }
    }

    /** The entry is what some finished request was decided to get, logged at some instant since it began. */
    ghost predicate OfSomeRequest(e: LogEntry)
      reads this`model
    {
      exists j :: 0 <= j < |model.submitted| && model.submitted[j].entry == e &&
                  Responses.SubmittedFits(model.now, model.requests, model.submitted[j])
    }

    lemma SubmittedIsOfSomeRequest(e: LogEntry)
      requires Valid() && e in EntriesOf(model.submitted)
      ensures OfSomeRequest(e)
    {
      ModelIsReached();
      var j :| 0 <= j < |EntriesOf(model.submitted)| && EntriesOf(model.submitted)[j] == e;
      Responses.EveryLogEntryFits(cfg, states[0].matcher, states[0].now, trace, j);
      assert model.submitted[j].entry == e;
    }

    /** What the requests have submitted is what each sink has delivered, holds and has dropped. */
    lemma SinkConservesSubmitted(i: nat)
      requires Valid() && i < |logger.sinks|
      ensures logger.sinks[i] == After(OpsOf(logger.ops, i)) &&
              Offered(OpsOf(logger.ops, i)) == EntriesOf(model.submitted)
      ensures multiset(EntriesOf(model.submitted)) ==
              multiset(logger.sinks[i].delivered + logger.sinks[i].queue) + multiset(Dropped(OpsOf(logger.ops, i)))
    {
      SinksAreIndependent(|logger.sinks|, logger.ops, i);
      ChannelConserves(OpsOf(logger.ops, i));
    }

    /** From the requests to the API: a sink's ring buffer shows, newest received first, only entries of finished
        requests. It has received what was delivered to it, or, between its consumer's two steps, a little less. */
    lemma ShownLogsAreOfRequests(i: nat, sink: MemoryLogSink, limit: nat, k: nat)
      requires Valid() && i < |logger.sinks| && sink.Valid() && sink.received <= logger.sinks[i].delivered
      ensures var shown := GetLogs(sink.buffer, limit);
              && |shown| == Min(limit, Min(Max(sink.capacity, 1), |sink.received|))
              && (k < |shown| ==> shown[k] == sink.received[|sink.received| - 1 - k] && OfSomeRequest(shown[k]))
    {
      SinkConservesSubmitted(i);
      ReceivedWasOffered(OpsOf(logger.ops, i), sink.received, Max(sink.capacity, 1), limit, k);
      var shown := GetLogs(LastOf(sink.received, Max(sink.capacity, 1)), limit);
      if k < |shown| {
        assert shown[k] in EntriesOf(model.submitted);
        SubmittedIsOfSomeRequest(shown[k]);
      }
    }

    // ----- the snapshot ----------------------------------------------------------------------------------------

    /** Any number of steps of anybody. */
    method Others()
      requires Valid()
      modifies this, clock, stats, stats.blockedBySource, stats.upstreamTotalMs, stats.upstreamCount, logger, appState
      ensures Valid() && old(trace) <= trace && states[0] == old(states)[0]
    {
      var elapsed: int := *;
      if elapsed > 0 {
        clock.now := clock.now + elapsed;
        Take(Tick(elapsed));
      }
    }

    /** The scalar loads of `get_snapshot`, others in between. Blocked and cached together may exceed the total shown,
        but by no more than the queries that arrived meanwhile. */
    method LoadCounts() returns (total: u64, blocked: u64, hits: u64)
      requires Valid()
      modifies this, clock, stats, stats.blockedBySource, stats.upstreamTotalMs, stats.upstreamCount, logger, appState
      ensures Valid() && old(trace) <= trace && total == old(model).counters.total && hits == model.counters.hits
      ensures |model.requests| < U64 ==>
                blocked + hits <= total + Count(trace[|old(trace)|..], Accounting.IsArrival)
    {
      ghost var first := trace;
      ModelIsReached();
      total := stats.totalQueries;
      Others();
      ghost var second := trace;
      ModelIsReached();
      blocked := stats.blockedQueries;
      Others();
      ModelIsReached();
      hits := stats.cacheHits;
      assert trace[..|first|] == first && trace[..|second|] == second;
      if |model.requests| < U64 {
        Accounting.SnapshotExcess(cfg, states[0].matcher, states[0].now, trace, |first|, |second|);
      }
    }
  }
}
