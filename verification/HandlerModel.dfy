/** The request handler as a state machine. Every request and every background refresh is a task; a
    step is one task passing its next access to shared state, an upstream answering, the cache
    evicting, a control action, or time passing. Tasks interleave at every step. */
module HandlerModel {
  import opened Prelude
  import opened Dns
  import opened QueryLog
  import Stats
  import AppStates

  // ----- configuration -----------------------------------------------------------------

  /** `parses` says which configured or queried strings are accepted as domain names. */
  datatype Config = Config(
    disableIpv6: bool, minTtl: u32, graceSecs: nat, logging: bool,
    localRecords: map<string, IpAddr>, parses: string -> bool)

  function LocalRecord(cfg: Config, domain: string): Record
    requires domain in cfg.localRecords
  {
    Record(domain, cfg.minTtl,
           match cfg.localRecords[domain]
           case Ipv4(addr) => V4(addr)
           case Ipv6(addr) => V6(addr))
  }

  /** One record for every configured name that parses. */
  function LocalTable(cfg: Config): map<string, seq<Record>> {
    map d | d in cfg.localRecords && cfg.parses(d) :: [LocalRecord(cfg, d)]
  }

  predicate LocalMatch(cfg: Config, name: string, qtype: RecordType) {
    name in LocalTable(cfg) && LocalTable(cfg)[name] != [] && LocalTable(cfg)[name][0].RecordType() == qtype
  }

  // ----- cache entries -------------------------------------------------------------------

  datatype Key = Key(name: string, qtype: RecordType)

  datatype Entry = Entry(records: seq<Record>, validUntil: nat, staleUntil: nat)

  predicate IsAAAA(r: Record) { r.RecordType() == AAAA }

  function WithoutAAAA(rs: seq<Record>): seq<Record> {
    if rs == [] then []
    else WithoutAAAA(rs[..|rs| - 1]) + (if IsAAAA(rs[|rs| - 1]) then [] else [rs[|rs| - 1]])
  }

  /** What is left of an upstream's records: `retain` drops AAAA when IPv6 is disabled. */
  function Visible(cfg: Config, rs: seq<Record>): seq<Record> {
    if cfg.disableIpv6 then WithoutAAAA(rs) else rs
  }

  function MinTtl(rs: seq<Record>): (ttl: u32)
    requires rs != []
    ensures forall r :: r in rs ==> ttl <= r.ttl
    ensures exists r :: r in rs && ttl == r.ttl
  {
    if |rs| == 1 then rs[0].ttl
    else
      var n := |rs| - 1;
      var rest := MinTtl(rs[..n]);
      assert forall r :: r in rs <==> r in rs[..n] || r == rs[n];
      if rs[n].ttl < rest then rs[n].ttl else rest
  }

  /** Seconds an entry stays fresh; an empty answer (NODATA) lives for the configured minimum. */
  function Lifetime(cfg: Config, rs: seq<Record>): nat {
    if rs == [] then cfg.minTtl else Max(MinTtl(rs), cfg.minTtl)
  }

  function MakeEntry(cfg: Config, rs: seq<Record>, stamp: nat): Entry {
    var validUntil := stamp + Lifetime(cfg, rs) * SECOND;
    Entry(rs, validUntil, validUntil + cfg.graceSecs * SECOND)
  }

  /** A usable entry as classified at instant `at`. */
  datatype Hit = Hit(records: seq<Record>, stale: bool, ttl: nat, at: nat)

  function Classified(e: Entry, now: nat): Option<Hit> {
    if now < e.validUntil then Some(Hit(e.records, false, (e.validUntil - now) / SECOND, now))
    else if now < e.staleUntil then Some(Hit(e.records, true, 0, now))
    else None
  }

  // ----- tasks ---------------------------------------------------------------------------

  /** How a request ends. */
  datatype Outcome =
    | Ipv6Off
    | FromLocal(records: seq<Record>)
    | Sunk(source: u8)
    | FromCache(hit: Hit)
    | FromUpstream(records: seq<Record>, upstream: string)
    | NoAnswer(error: string)

  /** Progress through `resolve_and_cache`. */
  datatype Rc =
    | Calling
    | Awaiting
    | Stamping(records: seq<Record>, upstream: string)
    | Inserting(entry: Entry, upstream: string)
    | Finished

  /** What a request is about to do. */
  datatype Phase =
    | CountClient | CountDomain | Ipv6Gate | LocalGate | PauseGate | BlockGate
    | CountBlocked(source: u8) | CountSource(source: u8)
    | CountClientBlock(source: u8) | CountDomainBlock(source: u8)
    | Lookup | Classify(entry: Entry) | CountHit(hit: Hit) | Spawn(hit: Hit)
    | Upstream(rc: Rc)
    | Send(outcome: Outcome) | Log(outcome: Outcome) | Done(outcome: Outcome)

  datatype Req = Req(client: string, name: string, qtype: RecordType, start: nat, phase: Phase) {
    function CacheKey(): Key { Key(name, qtype) }
  }

  datatype Refresher = Refresher(key: Key, origin: nat, rc: Rc)

  function Decided(p: Phase): Option<Outcome> {
    if p.Send? || p.Log? || p.Done? then Some(p.outcome) else None
  }

  // ----- what leaves the handler ------------------------------------------------------------

  datatype Rcode = NoError | NXDomain | ServFail

  datatype Response = Response(rcode: Rcode, answers: seq<Record>)

  function SinkRecord(cfg: Config, name: string, data: RData): Record {
    Record(if cfg.parses(name) then name else "", 60, data)
  }

  function ResponseFor(cfg: Config, r: Req, o: Outcome): Response {
    match o
    case Ipv6Off => Response(NoError, [])
    case FromLocal(rs) => Response(NoError, rs)
    case Sunk(_) =>
      (match r.qtype
       case A => Response(NoError, [SinkRecord(cfg, r.name, V4("0.0.0.0"))])
       case AAAA => Response(NoError, [SinkRecord(cfg, r.name, V6("::"))])
       case Other(_) => Response(NXDomain, []))
    case FromCache(hit) => Response(NoError, hit.records)
    case FromUpstream(rs, _) => Response(NoError, rs)
    case NoAnswer(_) => Response(ServFail, [])
  }

  function LogFor(r: Req, o: Outcome, now: nat): LogEntry {
    var latency := if now < r.start then 0 else (now - r.start) / MILLISECOND;
    match o
    case Ipv6Off => LogEntry(r.client, r.name, r.qtype, Blocked, None, Some("ipv6-disabled"), latency, None)
    case FromLocal(_) => LogEntry(r.client, r.name, r.qtype, Action.Local, None, Some("local-config"), latency, None)
    case Sunk(source) => LogEntry(r.client, r.name, r.qtype, Blocked, Some(source), None, latency, None)
    case FromCache(hit) => LogEntry(r.client, r.name, r.qtype, Cached, None, None, latency, Some(hit.ttl))
    case FromUpstream(_, u) => LogEntry(r.client, r.name, r.qtype, Forwarded, None, Some(u), latency, None)
    case NoAnswer(e) => LogEntry(r.client, r.name, r.qtype, Forwarded, None, Some("error: " + e), latency, None)
  }

  // ----- state ---------------------------------------------------------------------------------

  type Matcher = string -> Option<u8>

  datatype Answer = Answer(task: Task, key: Key, resolution: Resolution, at: nat)
  datatype CacheOp = Insert(key: Key, entry: Entry, inserter: Task) | Evicted(key: Key)
  datatype Sent = Sent(id: nat, response: Response)
  datatype Submitted = Submitted(id: nat, entry: LogEntry)

  /** Requests and refreshes are kept for ever, the latest state of each; the other sequences record
      resolver calls, upstream answers and whom they went to, cache operations and who made them, responses and
      log submissions, in order. */
  datatype State = State(
    now: nat, cache: map<Key, Entry>, matcher: Matcher, pausedUntil: Option<nat>, counters: Stats.Counters,
    requests: seq<Req>, refreshes: seq<Refresher>,
    calls: seq<Key>, answers: seq<Answer>, cacheOps: seq<CacheOp>, sent: seq<Sent>, submitted: seq<Submitted>)

  function Init(matcher: Matcher, now: nat): State {
    State(now, map[], matcher, None, Stats.NoCounts(), [], [], [], [], [], [], [])
  }

  // ----- steps ----------------------------------------------------------------------------------

  datatype Task = Request(id: nat) | Refresh(id: nat)

  datatype Step =
    | Tick(elapsed: nat)
    | Arrive(client: string, rawName: string, qtype: RecordType)
    | Advance(task: Task)
    | Reply(task: Task, resolution: Resolution)
    | Evict(key: Key)
    | Swap(matcher: Matcher)
    | PauseFor(duration: nat)
    | ResumeNow

  /** What a request turns into when it takes its next step in state s. */
  function ReqAfter(cfg: Config, s: State, r: Req): Req {
    match r.phase
    case CountClient => r.(phase := CountDomain)
    case CountDomain => r.(phase := Ipv6Gate, start := s.now)
    case Ipv6Gate => r.(phase := if cfg.disableIpv6 && r.qtype == AAAA then Send(Ipv6Off) else LocalGate)
    case LocalGate =>
      r.(phase := if LocalMatch(cfg, r.name, r.qtype) then Send(FromLocal(LocalTable(cfg)[r.name])) else PauseGate)
    case PauseGate => r.(phase := if AppStates.Active(s.pausedUntil, s.now) then BlockGate else Lookup)
    case BlockGate =>
      r.(phase := match s.matcher(r.name)
                  case Some(source) => CountBlocked(source)
                  case None => Lookup)
    case CountBlocked(source) => r.(phase := CountSource(source))
    case CountSource(source) => r.(phase := CountClientBlock(source))
    case CountClientBlock(source) => r.(phase := CountDomainBlock(source))
    case CountDomainBlock(source) => r.(phase := Send(Sunk(source)))
    case Lookup =>
      r.(phase := if r.CacheKey() in s.cache then Classify(s.cache[r.CacheKey()]) else Upstream(Calling))
    case Classify(e) =>
      r.(phase := match Classified(e, s.now)
                  case Some(hit) => CountHit(hit)
                  case None => Upstream(Calling))
    case CountHit(hit) => r.(phase := if hit.stale then Spawn(hit) else Send(FromCache(hit)))
    case Spawn(hit) => r.(phase := Send(FromCache(hit)))
    case Upstream(rc) =>
      (match rc
       case Inserting(e, u) => r.(phase := Send(FromUpstream(e.records, u)))
       case _ => r.(phase := Upstream(RcAfter(cfg, s.now, rc))))
    case Send(o) => r.(phase := if cfg.logging then Log(o) else Done(o))
    case Log(o) => r.(phase := Done(o))
    case Done(_) => r
  }

  /** `resolve_and_cache`: the call, the answer's time stamp and the insertion are separate steps. */
  function RcAfter(cfg: Config, now: nat, rc: Rc): Rc {
    match rc
    case Calling => Awaiting
    case Awaiting => Awaiting
    case Stamping(rs, u) => Inserting(MakeEntry(cfg, rs, now), u)
    case Inserting(_, _) => Finished
    case Finished => Finished
  }

  function RcEffect(s: State, task: Task, key: Key, rc: Rc): State {
    match rc
    case Calling => s.(calls := s.calls + [key])
    case Inserting(e, _) => s.(cache := s.cache[key := e], cacheOps := s.cacheOps + [Insert(key, e, task)])
    case _ => s
  }

  /** The counter update that a request's next step is, if it is one. */
  function CountersAfter(c: Stats.Counters, r: Req): Stats.Counters {
    match r.phase
    case CountClient => c.(clientQueries := Bump(c.clientQueries, r.client))
    case CountDomain => c.(domainQueries := Bump(c.domainQueries, r.name))
    case CountBlocked(_) => c.(blocked := Inc(c.blocked))
    case CountSource(source) => c.(bySource := BumpCell(c.bySource, source))
    case CountClientBlock(_) => c.(clientBlocks := Bump(c.clientBlocks, r.client))
    case CountDomainBlock(_) => c.(domainBlocks := Bump(c.domainBlocks, r.name))
    case CountHit(_) => c.(hits := Inc(c.hits))
    case _ => c
  }

  /** What a request's next step does to the shared state. */
  function Effect(cfg: Config, s: State, id: nat, r: Req): State {
    match r.phase
    case Spawn(_) => s.(refreshes := s.refreshes + [Refresher(r.CacheKey(), id, Calling)])
    case Upstream(rc) => RcEffect(s, Request(id), r.CacheKey(), rc)
    case Send(o) => s.(sent := s.sent + [Sent(id, ResponseFor(cfg, r, o))])
    case Log(o) => s.(submitted := s.submitted + [Submitted(id, LogFor(r, o, s.now))])
    case _ => s.(counters := CountersAfter(s.counters, r))
  }

  function AdvanceRequest(cfg: Config, s: State, id: nat): State
    requires id < |s.requests|
  {
    var r := s.requests[id];
    Effect(cfg, s, id, r).(requests := s.requests[id := ReqAfter(cfg, s, r)])
  }

  function AdvanceRefresh(cfg: Config, s: State, id: nat): State
    requires id < |s.refreshes|
  {
    var f := s.refreshes[id];
    RcEffect(s, Refresh(id), f.key, f.rc).(refreshes := s.refreshes[id := f.(rc := RcAfter(cfg, s.now, f.rc))])
  }

  function ReplyToRequest(cfg: Config, s: State, id: nat, resolution: Resolution): State
    requires id < |s.requests|
  {
    var r := s.requests[id];
    if r.phase != Upstream(Awaiting) then s
    else
      var phase := match resolution
                   case Resolved(rs, u) => Upstream(Stamping(Visible(cfg, rs), u))
                   case Failed(e) => Send(NoAnswer(e));
      s.(answers := s.answers + [Answer.Answer(Request(id), r.CacheKey(), resolution, s.now)],
         requests := s.requests[id := r.(phase := phase)])
  }

  function ReplyToRefresh(cfg: Config, s: State, id: nat, resolution: Resolution): State
    requires id < |s.refreshes|
  {
    var f := s.refreshes[id];
    if f.rc != Awaiting then s
    else
      var rc := match resolution
                case Resolved(rs, u) => Stamping(Visible(cfg, rs), u)
                case Failed(_) => Finished;
      s.(answers := s.answers + [Answer.Answer(Refresh(id), f.key, resolution, s.now)],
         refreshes := s.refreshes[id := f.(rc := rc)])
  }

  /** A step that does not apply leaves the state alone, so every sequence of steps is a run. */
  function Next(cfg: Config, s: State, step: Step): State {
    match step
    case Tick(elapsed) => s.(now := s.now + elapsed)
    case Arrive(client, rawName, qtype) =>
      s.(counters := s.counters.(total := Inc(s.counters.total)),
         requests := s.requests + [Req(client, QueryName(rawName), qtype, s.now, CountClient)])
    case Advance(task) =>
      (match task
       case Request(id) => if id < |s.requests| then AdvanceRequest(cfg, s, id) else s
       case Refresh(id) => if id < |s.refreshes| then AdvanceRefresh(cfg, s, id) else s)
    case Reply(task, resolution) =>
      (match task
       case Request(id) => if id < |s.requests| then ReplyToRequest(cfg, s, id, resolution) else s
       case Refresh(id) => if id < |s.refreshes| then ReplyToRefresh(cfg, s, id, resolution) else s)
    case Evict(key) => s.(cache := s.cache - {key}, cacheOps := s.cacheOps + [Evicted(key)])
    case Swap(matcher) => s.(matcher := matcher)
    case PauseFor(duration) => s.(pausedUntil := Some(s.now + duration))
    case ResumeNow => s.(pausedUntil := None)
  }

  function Exec(cfg: Config, s: State, steps: seq<Step>): State {
    if steps == [] then s else Next(cfg, Exec(cfg, s, steps[..|steps| - 1]), steps[|steps| - 1])
  }

  /** A run as the states it goes through. */
  ghost predicate IsRun(cfg: Config, states: seq<State>, trace: seq<Step>) {
    && |states| == |trace| + 1
    && forall i {:trigger trace[i]} :: 0 <= i < |trace| ==> states[i + 1] == Next(cfg, states[i], trace[i])
  }

  lemma {:induction false} RunIsExec(cfg: Config, states: seq<State>, trace: seq<Step>)
    requires IsRun(cfg, states, trace)
    ensures states[|trace|] == Exec(cfg, states[0], trace)
  {
    if trace != [] {
      var n := |trace| - 1;
      assert trace[..n] + [trace[n]] == trace;
      RunIsExec(cfg, states[..n + 1], trace[..n]);
    }
  }

  // ----- what every step keeps ---------------------------------------------------------------------

  /** The steps that belong to a task. */
  predicate Owns(step: Step, task: Task) { (step.Advance? || step.Reply?) && step.task == task }

  /** Time and the histories only grow. */
  ghost predicate Grows(s: State, s': State) {
    && s.now <= s'.now
    && s.answers <= s'.answers && s.calls <= s'.calls && s.cacheOps <= s'.cacheOps
    && s.sent <= s'.sent && s.submitted <= s'.submitted
  }

  /** Requests and refreshes keep their identity. */
  ghost predicate KeepsTasks(s: State, s': State) {
    && |s.requests| <= |s'.requests| && |s.refreshes| <= |s'.refreshes|
    && (forall i :: 0 <= i < |s.requests| ==>
                      s'.requests[i].client == s.requests[i].client &&
                      s'.requests[i].CacheKey() == s.requests[i].CacheKey())
    && (forall i :: 0 <= i < |s.refreshes| ==>
                      s'.refreshes[i].key == s.refreshes[i].key && s'.refreshes[i].origin == s.refreshes[i].origin)
  }

  lemma EffectGrows(cfg: Config, s: State, id: nat, r: Req)
    ensures var e := Effect(cfg, s, id, r);
            && Grows(s, e) && e.requests == s.requests && s.refreshes <= e.refreshes
            && e.now == s.now && e.answers == s.answers && e.matcher == s.matcher && e.pausedUntil == s.pausedUntil
            && e.counters.total == s.counters.total
            && (r.phase.Spawn? || e.refreshes == s.refreshes)
  {}

  lemma ReqAfterKeepsIdentity(cfg: Config, s: State, r: Req)
    ensures var r' := ReqAfter(cfg, s, r); r'.client == r.client && r'.CacheKey() == r.CacheKey()
  {}

  lemma NextGrows(cfg: Config, s: State, step: Step)
    ensures Grows(s, Next(cfg, s, step))
  {
    if step.Advance? && step.task.Request? && step.task.id < |s.requests| {
      EffectGrows(cfg, s, step.task.id, s.requests[step.task.id]);
    }
  }

  lemma NextKeepsTasks(cfg: Config, s: State, step: Step)
    ensures KeepsTasks(s, Next(cfg, s, step))
  {
    if step.Advance? && step.task.Request? && step.task.id < |s.requests| {
      EffectGrows(cfg, s, step.task.id, s.requests[step.task.id]);
      ReqAfterKeepsIdentity(cfg, s, s.requests[step.task.id]);
    }
  }

  /** A request moves by its own steps only. */
  lemma OthersKeepRequest(cfg: Config, s: State, step: Step, id: nat)
    requires id < |s.requests| && !Owns(step, Request(id))
    ensures |Next(cfg, s, step).requests| >= |s.requests| && Next(cfg, s, step).requests[id] == s.requests[id]
  {}

  lemma OthersKeepRefresh(cfg: Config, s: State, step: Step, id: nat)
    requires id < |s.refreshes| && !Owns(step, Refresh(id))
    ensures |Next(cfg, s, step).refreshes| >= |s.refreshes| && Next(cfg, s, step).refreshes[id] == s.refreshes[id]
  {}

  // ----- progress --------------------------------------------------------------------------------------

  /** An upper bound on the steps a request still takes. */
  function StepsLeft(p: Phase): nat {
    match p
    case CountClient => 15
    case CountDomain => 14
    case Ipv6Gate => 13
    case LocalGate => 12
    case PauseGate => 11
    case BlockGate => 10
    case CountBlocked(_) => 6
    case CountSource(_) => 5
    case CountClientBlock(_) => 4
    case CountDomainBlock(_) => 3
    case Lookup => 9
    case Classify(_) => 8
    case CountHit(_) => 4
    case Spawn(_) => 3
    case Upstream(rc) =>
      (match rc
       case Calling => 7
       case Awaiting => 6
       case Stamping(_, _) => 5
       case Inserting(_, _) => 4
       case Finished => 3)
    case Send(_) => 2
    case Log(_) => 1
    case Done(_) => 0
  }

  /** The step a request waits for: an upstream's reply while a call is outstanding, else its own. */
  predicate MovesOn(r: Req, id: nat, step: Step) {
    if r.phase == Upstream(Awaiting) then step.Reply? && step.task == Request(id)
    else step == Advance(Request(id))
  }

  lemma ReqAfterUsesUpAStep(cfg: Config, s: State, r: Req)
    ensures StepsLeft(ReqAfter(cfg, s, r).phase) <= StepsLeft(r.phase) <= 15
    ensures StepsLeft(ReqAfter(cfg, s, r).phase) == StepsLeft(r.phase) ==>
              r.phase.Done? || r.phase == Upstream(Awaiting) || r.phase == Upstream(Finished)
  {}

  /** Whatever the other tasks do, a request is done after at most 15 steps of its own. */
  lemma OwnStepsAreBounded(cfg: Config, s: State, step: Step, id: nat)
    requires id < |s.requests| && s.requests[id].phase != Upstream(Finished)
    ensures id < |Next(cfg, s, step).requests| && Next(cfg, s, step).requests[id].phase != Upstream(Finished)
    ensures var r, r' := s.requests[id], Next(cfg, s, step).requests[id];
            && StepsLeft(r'.phase) <= StepsLeft(r.phase) <= 15
            && (MovesOn(r, id, step) && !r.phase.Done? ==> StepsLeft(r'.phase) < StepsLeft(r.phase))
            && (StepsLeft(r.phase) == 0 <==> r.phase.Done?)
  {
    if Owns(step, Request(id)) {
      EffectGrows(cfg, s, id, s.requests[id]);
      ReqAfterUsesUpAStep(cfg, s, s.requests[id]);
    } else {
      OthersKeepRequest(cfg, s, step, id);
    }
  }

  /** How many of its own steps request id takes in a run before it is done. */
  function OwnSteps(cfg: Config, s: State, steps: seq<Step>, id: nat): nat {
    if steps == [] then 0
    else
      var n := |steps| - 1;
      OwnSteps(cfg, s, steps[..n], id) + (if UsesStep(Exec(cfg, s, steps[..n]), steps[n], id) then 1 else 0)
  }

  predicate UsesStep(s: State, step: Step, id: nat) {
    id < |s.requests| && !s.requests[id].phase.Done? && MovesOn(s.requests[id], id, step)
  }

  /** The request is on its way, with at most this many steps of its own left. */
  predicate Left(s: State, id: nat, left: int) {
    id < |s.requests| && s.requests[id].phase != Upstream(Finished) && StepsLeft(s.requests[id].phase) <= left
  }

  lemma StepUsesItUp(cfg: Config, s: State, step: Step, id: nat, left: nat)
    requires Left(s, id, left)
    ensures Left(Next(cfg, s, step), id, left - (if UsesStep(s, step, id) then 1 else 0))
  {
    OwnStepsAreBounded(cfg, s, step, id);
  }

  lemma {:induction false} StepsAreUsedUp(cfg: Config, s: State, steps: seq<Step>, id: nat)
    requires id < |s.requests| && s.requests[id].phase != Upstream(Finished)
    ensures Left(Exec(cfg, s, steps), id, StepsLeft(s.requests[id].phase) - OwnSteps(cfg, s, steps, id))
  {
    if steps != [] {
      var n := |steps| - 1;
      StepsAreUsedUp(cfg, s, steps[..n], id);
      StepUsesItUp(cfg, Exec(cfg, s, steps[..n]), steps[n], id,
                   StepsLeft(s.requests[id].phase) - OwnSteps(cfg, s, steps[..n], id));
    }
  }

  /** In any run, from any point on, a request takes at most 15 steps of its own, and it is done once it has taken
      the ones it had left. */
  lemma {:induction false} RequestsTerminate(cfg: Config, s: State, steps: seq<Step>, id: nat)
    requires id < |s.requests| && s.requests[id].phase != Upstream(Finished)
    ensures var s' := Exec(cfg, s, steps);
            && id < |s'.requests| && s'.requests[id].phase != Upstream(Finished)
            && OwnSteps(cfg, s, steps, id) + StepsLeft(s'.requests[id].phase) <= StepsLeft(s.requests[id].phase) <= 15
            && (OwnSteps(cfg, s, steps, id) == StepsLeft(s.requests[id].phase) ==> s'.requests[id].phase.Done?)
  {
    StepsAreUsedUp(cfg, s, steps, id);
    ReqAfterUsesUpAStep(cfg, s, s.requests[id]);
    DoneIffNoneLeft(Exec(cfg, s, steps).requests[id].phase);
  }

  lemma DoneIffNoneLeft(p: Phase)
    ensures StepsLeft(p) == 0 <==> p.Done?
  {}
}
