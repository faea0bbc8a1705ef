/** Whether a newer answer can be overwritten in the cache by an older one. The time stamp and the insertion are
    separate steps, so two lookups of one key can overtake each other between them. */
module StampOrder {
  import opened Prelude
  import opened Dns
  import opened HandlerModel
  import opened CacheSafety
  import opened Ledger

  /** A request or refresh reads the clock for the deadlines of its entry. */
  datatype StampEvent = StampEvent(task: Task, at: nat)

  predicate Stamps(s: State, step: Step) {
    step.Advance? && RcOf(s, step.task).Some? && RcOf(s, step.task).value.Stamping?
  }

  function NewStamps(s: State, step: Step): seq<StampEvent> {
    if Stamps(s, step) then [StampEvent(step.task, s.now)] else []
  }

  /** The time stamps of a run, in order. */
  function StampLog(cfg: Config, s: State, steps: seq<Step>): seq<StampEvent> {
    if steps == [] then []
    else
      var before, step := Exec(cfg, s, steps[..|steps| - 1]), steps[|steps| - 1];
      StampLog(cfg, s, steps[..|steps| - 1]) + NewStamps(before, step)
  }

  /** The instants at which this request or refresh has stamped, in order. */
  function StampsBy(log: seq<StampEvent>, task: Task): seq<nat> {
    if log == [] then []
    else
      var last := log[|log| - 1];
      StampsBy(log[..|log| - 1], task) + (if last.task == task then [last.at] else [])
  }

  lemma StampsAppend(log: seq<StampEvent>, x: StampEvent, task: Task)
    ensures StampsBy(log + [x], task) == StampsBy(log, task) + (if x.task == task then [x.at] else [])
  {
    assert (log + [x])[..|log|] == log;
  }

  lemma {:induction false} StampIsLogged(log: seq<StampEvent>, p: nat)
    requires p < |log|
    ensures log[p].at in StampsBy(log, log[p].task)
  {
    if p < |log| - 1 { StampIsLogged(log[..|log| - 1], p); }
  }

  lemma {:induction false} StampWasLogged(log: seq<StampEvent>, task: Task, at: nat) returns (p: nat)
    requires at in StampsBy(log, task)
    ensures p < |log| && log[p] == StampEvent(task, at)
  {
    var n := |log| - 1;
    if log[n] == StampEvent(task, at) { p := n; } else { p := StampWasLogged(log[..n], task, at); }
  }

  // ----- each inserted entry is the one its inserter stamped --------------------------------------------

  /** The entry has the deadlines of this instant. */
  predicate MadeAt(cfg: Config, e: Entry, at: nat) { e == MakeEntry(cfg, e.records, at) }

  /** At most one stamp and after it at most one insertion, of the entry with that stamp. */
  ghost predicate Punctual(cfg: Config, s: State, log: seq<StampEvent>, task: Task) {
    var stamps, inserts := StampsBy(log, task), InsertedBy(s.cacheOps, task);
    match StageOf(s, task)
    case Unasked => stamps == [] && inserts == []
    case Holding(_) => inserts == [] && HoldsStamp(cfg, RcOf(s, task), stamps)
    case Over => |stamps| == |inserts| <= 1 && (stamps != [] ==> MadeAt(cfg, inserts[0], stamps[0]))
  }

  predicate HoldsStamp(cfg: Config, rc: Option<Rc>, stamps: seq<nat>) {
    if rc.Some? && rc.value.Inserting? then |stamps| == 1 && MadeAt(cfg, rc.value.entry, stamps[0]) else stamps == []
  }

  lemma LogAfter(log: seq<StampEvent>, s: State, step: Step, task: Task)
    ensures StampsBy(log + NewStamps(s, step), task) ==
            StampsBy(log, task) + (if Stamps(s, step) && step.task == task then [s.now] else [])
  {
    if Stamps(s, step) { StampsAppend(log, StampEvent(step.task, s.now), task); } else { assert log + [] == log; }
  }

  lemma RcAfterAdvance(cfg: Config, s: State, task: Task)
    requires RcOf(s, task).Some? && !RcOf(s, task).value.Inserting?
    ensures RcOf(Next(cfg, s, Advance(task)), task) == Some(RcAfter(cfg, s.now, RcOf(s, task).value))
  {}

  lemma OthersKeepRc(cfg: Config, s: State, step: Step, task: Task)
    requires !Owns(step, task) && RcOf(s, task).Some?
    ensures RcOf(Next(cfg, s, step), task) == RcOf(s, task)
  {
    match task
    case Request(id) => OthersKeepRequest(cfg, s, step, id);
    case Refresh(id) => OthersKeepRefresh(cfg, s, step, id);
  }

  lemma RcAfterReply(cfg: Config, s: State, task: Task, resolution: Resolution)
    ensures var rc' := RcOf(Next(cfg, s, Reply(task, resolution)), task);
            rc' == RcOf(s, task) || rc' == None || !rc'.value.Inserting?
  {}

  lemma HoldingIsInResolve(s: State, task: Task)
    requires StageOf(s, task).Holding?
    ensures RcOf(s, task).Some? && (RcOf(s, task).value.Stamping? || RcOf(s, task).value.Inserting?)
  {}

  lemma StampersHold(s: State, step: Step)
    requires Stamps(s, step)
    ensures StageOf(s, step.task).Holding?
  {}

  lemma NextPunctual(cfg: Config, s: State, log: seq<StampEvent>, step: Step, task: Task)
    requires Punctual(cfg, s, log, task)
    ensures Punctual(cfg, Next(cfg, s, step), log + NewStamps(s, step), task)
  {
    LogAfter(log, s, step, task);
    InsertedAfter(cfg, s, step, task);
    if !Owns(step, task) {
      OthersKeepStage(cfg, s, step, task);
      if StageOf(s, task).Holding? {
        HoldingIsInResolve(s, task);
        OthersKeepRc(cfg, s, step, task);
      }
    } else if step.Advance? {
      AdvancePunctual(cfg, s, task);
    } else {
      ReplyStage(cfg, s, task, step.resolution);
      RcAfterReply(cfg, s, task, step.resolution);
    }
  }

  /** What a step of its own does to a request or refresh that holds an answer. */
  lemma AdvancePunctual(cfg: Config, s: State, task: Task)
    ensures var step := Advance(task);
            var stage, stage' := StageOf(s, task), StageOf(Next(cfg, s, step), task);
            && (Inserts(s, step) ==> stage.Holding? && stage' == Over)
            && (Stamps(s, step) ==> stage.Holding? && stage' == stage &&
                                    RcOf(Next(cfg, s, step), task).Some? &&
                                    RcOf(Next(cfg, s, step), task).value.Inserting? &&
                                    MadeAt(cfg, RcOf(Next(cfg, s, step), task).value.entry, s.now))
            && (!Inserts(s, step) && !Stamps(s, step) ==> !stage.Holding? && stage' == stage)
  {
    AdvanceStage(cfg, s, task);
    if Stamps(s, Advance(task)) { StampersHold(s, Advance(task)); }
    if StageOf(s, task).Holding? { HoldingIsInResolve(s, task); }
    if RcOf(s, task).Some? && !RcOf(s, task).value.Inserting? { RcAfterAdvance(cfg, s, task); }
  }

  lemma {:induction false} RunPunctual(cfg: Config, matcher: Matcher, t0: nat, steps: seq<Step>, task: Task)
    ensures Punctual(cfg, Exec(cfg, Init(matcher, t0), steps), StampLog(cfg, Init(matcher, t0), steps), task)
  {
    if steps != [] {
      var n := |steps| - 1;
      RunPunctual(cfg, matcher, t0, steps[..n], task);
      NextPunctual(cfg, Exec(cfg, Init(matcher, t0), steps[..n]), StampLog(cfg, Init(matcher, t0), steps[..n]),
                   steps[n], task);
    }
  }

  // ----- the order of stamps against the order of insertions ----------------------------------------------

  /** The log is in the order of time. */
  ghost predicate InTime(log: seq<StampEvent>, now: nat) {
    && (forall p :: 0 <= p < |log| ==> log[p].at <= now)
    && (forall p, q :: 0 <= p < q < |log| ==> log[p].at <= log[q].at)
  }

  lemma {:induction false} LogIsInTime(cfg: Config, s: State, steps: seq<Step>)
    ensures InTime(StampLog(cfg, s, steps), Exec(cfg, s, steps).now)
  {
    if steps != [] {
      var n := |steps| - 1;
      LogIsInTime(cfg, s, steps[..n]);
      NextGrows(cfg, Exec(cfg, s, steps[..n]), steps[n]);
    }
  }

  predicate InsertsOf(ops: seq<CacheOp>, key: Key, i: nat) { i < |ops| && ops[i].Insert? && ops[i].key == key }

  /** Operation i inserts an entry of this key that was stamped at this instant, as entry p of the log. */
  ghost predicate InsertedFrom(cfg: Config, log: seq<StampEvent>, ops: seq<CacheOp>, key: Key, i: nat, p: nat) {
    InsertsOf(ops, key, i) && p < |log| && log[p].task == ops[i].inserter && MadeAt(cfg, ops[i].entry, log[p].at)
  }

  lemma {:induction false} InsertIsByInserter(ops: seq<CacheOp>, i: nat)
    requires i < |ops| && ops[i].Insert?
    ensures ops[i].entry in InsertedBy(ops, ops[i].inserter)
  {
    if i < |ops| - 1 { InsertIsByInserter(ops[..|ops| - 1], i); }
  }

  /** Every insertion of a run has its stamp in the log, and only one. */
  lemma InsertHasItsStamp(cfg: Config, matcher: Matcher, t0: nat, steps: seq<Step>, key: Key, i: nat) returns (p: nat)
    requires InsertsOf(Exec(cfg, Init(matcher, t0), steps).cacheOps, key, i)
    ensures InsertedFrom(cfg, StampLog(cfg, Init(matcher, t0), steps), Exec(cfg, Init(matcher, t0), steps).cacheOps,
                         key, i, p)
  {
    var ops, log := Exec(cfg, Init(matcher, t0), steps).cacheOps, StampLog(cfg, Init(matcher, t0), steps);
    RunPunctual(cfg, matcher, t0, steps, ops[i].inserter);
    InsertIsByInserter(ops, i);
    p := StampWasLogged(log, ops[i].inserter, StampsBy(log, ops[i].inserter)[0]);
  }

  lemma StampIsUnique(cfg: Config, matcher: Matcher, t0: nat, steps: seq<Step>, p: nat, q: nat)
    requires var log := StampLog(cfg, Init(matcher, t0), steps);
             p < |log| && q < |log| && log[p].task == log[q].task
    ensures StampLog(cfg, Init(matcher, t0), steps)[p].at == StampLog(cfg, Init(matcher, t0), steps)[q].at
  {
    var log := StampLog(cfg, Init(matcher, t0), steps);
    RunPunctual(cfg, matcher, t0, steps, log[p].task);
    StampIsLogged(log, p);
    StampIsLogged(log, q);
  }

  /** Later insertions of the key never carry an older stamp. */
  ghost predicate StampsNeverGoBack(cfg: Config, log: seq<StampEvent>, ops: seq<CacheOp>, key: Key) {
    forall i: nat, j: nat, p: nat, q: nat ::
      i < j && InsertedFrom(cfg, log, ops, key, i, p) && InsertedFrom(cfg, log, ops, key, j, q) ==>
        log[p].at <= log[q].at
  }

  /** One lookup of the key, of insertion j, stamped first, at an earlier instant, and inserted last. */
  ghost predicate Overtaken(cfg: Config, log: seq<StampEvent>, ops: seq<CacheOp>, key: Key, i: nat, j: nat, p: nat,
                            q: nat)
  {
    && i < j && InsertedFrom(cfg, log, ops, key, i, p) && InsertedFrom(cfg, log, ops, key, j, q)
    && q < p && log[q].at != log[p].at
  }

  /** In every run the stamps that a key's entries carry never go backwards exactly when no lookup of it that stamped
      at an earlier instant, and before, inserts after another. */
  lemma {:induction false} StampsGoBackIffOvertaken(cfg: Config, matcher: Matcher, t0: nat, steps: seq<Step>, key: Key)
    ensures var log, ops := StampLog(cfg, Init(matcher, t0), steps), Exec(cfg, Init(matcher, t0), steps).cacheOps;
            StampsNeverGoBack(cfg, log, ops, key) <==>
            !exists i: nat, j: nat, p: nat, q: nat :: Overtaken(cfg, log, ops, key, i, j, p, q)
  {
    LogIsInTime(cfg, Init(matcher, t0), steps);
    var log, ops := StampLog(cfg, Init(matcher, t0), steps), Exec(cfg, Init(matcher, t0), steps).cacheOps;
    if i: nat, j: nat, p: nat, q: nat :|
       i < j && InsertedFrom(cfg, log, ops, key, i, p) && InsertedFrom(cfg, log, ops, key, j, q) &&
       log[p].at > log[q].at {
      assert Overtaken(cfg, log, ops, key, i, j, p, q);
    }
    if i: nat, j: nat, p: nat, q: nat :| Overtaken(cfg, log, ops, key, i, j, p, q) {
      assert log[p].at > log[q].at;
    }
  }

  lemma {:induction false} ScanIsSomeInsert(ops: seq<CacheOp>, key: Key) returns (j: nat)
    requires Scan(ops, key).Some?
    ensures InsertsOf(ops, key, j) && ops[j].entry == Scan(ops, key).value
    ensures forall i: nat :: InsertsOf(ops, key, i) ==> i <= j
  {
    var n := |ops| - 1;
    if ops[n].key == key {
      j := n;
    } else {
      j := ScanIsSomeInsert(ops[..n], key);
      assert forall i: nat :: InsertsOf(ops, key, i) ==> InsertsOf(ops[..n], key, i);
    }
  }

  /** Then what the cache holds for a key carries the newest stamp that any insertion of the key ever carried. */
  lemma {:induction false} NewestStampIsCached(cfg: Config, matcher: Matcher, t0: nat, steps: seq<Step>, key: Key,
                                              i: nat, p: nat) returns (j: nat, q: nat)
    requires var s, log := Exec(cfg, Init(matcher, t0), steps), StampLog(cfg, Init(matcher, t0), steps);
             && StampsNeverGoBack(cfg, log, s.cacheOps, key) && key in s.cache
             && InsertedFrom(cfg, log, s.cacheOps, key, i, p)
    ensures var s, log := Exec(cfg, Init(matcher, t0), steps), StampLog(cfg, Init(matcher, t0), steps);
            && InsertedFrom(cfg, log, s.cacheOps, key, j, q) && s.cache[key] == s.cacheOps[j].entry
            && log[p].at <= log[q].at
  {
    var s := Exec(cfg, Init(matcher, t0), steps);
    LookupIsLatestInsert(cfg, matcher, t0, steps);
    assert LookupIn(s.cache, key) == Scan(s.cacheOps, key);
    j := ScanIsSomeInsert(s.cacheOps, key);
    q := InsertHasItsStamp(cfg, matcher, t0, steps, key, j);
    if i == j { StampIsUnique(cfg, matcher, t0, steps, p, q); }
  }

  /** s with request id there. */
  function At(s: State, id: nat, phase: Phase): State
    requires id < |s.requests|
  {
    s.(requests := s.requests[id := s.requests[id].(phase := phase)])
  }

  lemma StampMoves(cfg: Config, s: State, id: nat, rs: seq<Record>, u: string)
    requires id < |s.requests| && s.requests[id].phase == Upstream(Stamping(rs, u))
    ensures Next(cfg, s, Advance(Request(id))) == At(s, id, Upstream(Inserting(MakeEntry(cfg, rs, s.now), u)))
  {}

  lemma InsertMoves(cfg: Config, s: State, id: nat, e: Entry, u: string)
    requires id < |s.requests| && s.requests[id].phase == Upstream(Inserting(e, u))
    ensures var key := s.requests[id].CacheKey();
            Next(cfg, s, Advance(Request(id))) ==
            At(s, id, Send(FromUpstream(e.records, u)))
            .(cache := s.cache[key := e], cacheOps := s.cacheOps + [Insert(key, e, Request(id))])
  {}

  /** And it can happen: from any state with two requests for one key about to stamp, if the first to stamp is the
      last to insert, its older entry stays. */
  lemma OlderEntryCanWin(cfg: Config, s: State, a: nat, b: nat, elapsed: nat, ra: seq<Record>, rb: seq<Record>,
                         ua: string, ub: string)
    requires a < |s.requests| && b < |s.requests| && a != b && s.requests[a].CacheKey() == s.requests[b].CacheKey()
    requires s.requests[a].phase == Upstream(Stamping(ra, ua)) && s.requests[b].phase == Upstream(Stamping(rb, ub))
    ensures var key, x, y := s.requests[a].CacheKey(), Advance(Request(a)), Advance(Request(b));
            var s' := Exec(cfg, s, [y, Tick(elapsed), x, x, y]);
            && s'.cacheOps == s.cacheOps + [Insert(key, MakeEntry(cfg, ra, s.now + elapsed), Request(a))] +
                              [Insert(key, MakeEntry(cfg, rb, s.now), Request(b))]
            && key in s'.cache && s'.cache[key] == MakeEntry(cfg, rb, s.now)
  {
    var x, y := Advance(Request(a)), Advance(Request(b));
    var s1, s2, s3, s4, s5 := OvertakingSteps(cfg, s, a, b, elapsed, ra, rb, ua, ub);
    RunIsExec(cfg, [s, s1, s2, s3, s4, s5], [y, Tick(elapsed), x, x, y]);
  }

  lemma OvertakingSteps(cfg: Config, s: State, a: nat, b: nat, elapsed: nat, ra: seq<Record>, rb: seq<Record>,
                        ua: string, ub: string)
    returns (s1: State, s2: State, s3: State, s4: State, s5: State)
    requires a < |s.requests| && b < |s.requests| && a != b && s.requests[a].CacheKey() == s.requests[b].CacheKey()
    requires s.requests[a].phase == Upstream(Stamping(ra, ua)) && s.requests[b].phase == Upstream(Stamping(rb, ub))
    ensures s1 == Next(cfg, s, Advance(Request(b))) && s2 == Next(cfg, s1, Tick(elapsed))
    ensures s3 == Next(cfg, s2, Advance(Request(a))) && s4 == Next(cfg, s3, Advance(Request(a)))
    ensures s5 == Next(cfg, s4, Advance(Request(b)))
    ensures var key := s.requests[a].CacheKey();
            && s5.cacheOps == s.cacheOps + [Insert(key, MakeEntry(cfg, ra, s.now + elapsed), Request(a))] +
                              [Insert(key, MakeEntry(cfg, rb, s.now), Request(b))]
            && key in s5.cache && s5.cache[key] == MakeEntry(cfg, rb, s.now)
  {
    s1 := Next(cfg, s, Advance(Request(b)));
    StampMoves(cfg, s, b, rb, ub);
    s2 := Next(cfg, s1, Tick(elapsed));
    s3 := Next(cfg, s2, Advance(Request(a)));
    StampMoves(cfg, s2, a, ra, ua);
    s4 := Next(cfg, s3, Advance(Request(a)));
    InsertMoves(cfg, s3, a, MakeEntry(cfg, ra, s.now + elapsed), ua);
    s5 := Next(cfg, s4, Advance(Request(b)));
    InsertMoves(cfg, s4, b, MakeEntry(cfg, rb, s.now), ub);
  }
}
