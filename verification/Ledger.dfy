/** What each request and each refresh got from upstream, and what it did to the cache in return: one reply at most, one
    insertion for a success and none for a failure; over every interleaving. */
module Ledger {
  import opened Prelude
  import opened Dns
  import opened HandlerModel
  import opened CacheSafety

  /** The replies that this request or refresh has got, in order. */
  function RepliesTo(answers: seq<Answer>, task: Task): seq<Resolution> {
    if answers == [] then []
    else
      var last := answers[|answers| - 1];
      RepliesTo(answers[..|answers| - 1], task) + (if last.task == task then [last.resolution] else [])
  }

  /** The entries that this request or refresh has put into the cache, in order. */
  function InsertedBy(ops: seq<CacheOp>, task: Task): seq<Entry> {
    if ops == [] then []
    else
      var last := ops[|ops| - 1];
      InsertedBy(ops[..|ops| - 1], task) + (if last.Insert? && last.inserter == task then [last.entry] else [])
  }

  lemma RepliesAppend(answers: seq<Answer>, a: Answer, task: Task)
    ensures RepliesTo(answers + [a], task) == RepliesTo(answers, task) + (if a.task == task then [a.resolution] else [])
  {
    assert (answers + [a])[..|answers|] == answers;
  }

  lemma InsertedAppend(ops: seq<CacheOp>, op: CacheOp, task: Task)
    ensures InsertedBy(ops + [op], task) ==
            InsertedBy(ops, task) + (if op.Insert? && op.inserter == task then [op.entry] else [])
  {
    assert (ops + [op])[..|ops|] == ops;
  }

  datatype Stage = Unasked | Holding(records: seq<Record>) | Over

  function RcStage(rc: Rc): Stage {
    match rc
    case Calling => Unasked
    case Awaiting => Unasked
    case Stamping(rs, _) => Holding(rs)
    case Inserting(e, _) => Holding(e.records)
    case Finished => Over
  }

  function PhaseStage(p: Phase): Stage {
    if p.Upstream? then RcStage(p.rc)
    else
      match Decided(p)
      case Some(o) => if o.FromUpstream? || o.NoAnswer? then Over else Unasked
      case None => Unasked
  }

  /** Before the reply, between a successful reply and the insertion, or after either. */
  function StageOf(s: State, task: Task): Stage {
    match task
    case Request(id) => if id < |s.requests| then PhaseStage(s.requests[id].phase) else Unasked
    case Refresh(id) => if id < |s.refreshes| then RcStage(s.refreshes[id].rc) else Unasked
  }

  /** The one insertion that a reply calls for. */
  ghost predicate Settled(cfg: Config, reply: Resolution, inserts: seq<Entry>) {
    if reply.Resolved? then |inserts| == 1 && inserts[0].records == Visible(cfg, reply.records) else inserts == []
  }

  /** The account of one request or refresh. */
  ghost predicate Balanced(cfg: Config, s: State, task: Task) {
    var replies, inserts := RepliesTo(s.answers, task), InsertedBy(s.cacheOps, task);
    match StageOf(s, task)
    case Unasked => replies == [] && inserts == []
    case Holding(rs) =>
      inserts == [] && |replies| == 1 && replies[0].Resolved? && rs == Visible(cfg, replies[0].records)
    case Over => |replies| == 1 && Settled(cfg, replies[0], inserts)
  }

  // ----- one step -------------------------------------------------------------------------------------

  /** The step is a reply to a request or refresh that is waiting for one. */
  predicate Delivers(s: State, step: Step) { step.Reply? && RcOf(s, step.task) == Some(Awaiting) }

  lemma AnswersAfter(cfg: Config, s: State, step: Step)
    ensures Next(cfg, s, step).answers ==
            if Delivers(s, step) then
              s.answers + [Answer.Answer(step.task, KeyOf(s, step.task), step.resolution, s.now)]
            else s.answers
  {}

  lemma RepliesAfter(cfg: Config, s: State, step: Step, task: Task)
    ensures RepliesTo(Next(cfg, s, step).answers, task) ==
            RepliesTo(s.answers, task) + (if Delivers(s, step) && step.task == task then [step.resolution] else [])
  {
    AnswersAfter(cfg, s, step);
    if Delivers(s, step) {
      RepliesAppend(s.answers, Answer.Answer(step.task, KeyOf(s, step.task), step.resolution, s.now), task);
    }
  }

  lemma InsertedAfter(cfg: Config, s: State, step: Step, task: Task)
    ensures InsertedBy(Next(cfg, s, step).cacheOps, task) ==
            InsertedBy(s.cacheOps, task) +
            (if Inserts(s, step) && step.task == task then [RcOf(s, task).value.entry] else [])
  {
    CacheMovesWithHistory(cfg, s, step);
    if Inserts(s, step) {
      InsertedAppend(s.cacheOps, Insert(KeyOf(s, step.task), RcOf(s, step.task).value.entry, step.task), task);
    } else if step.Evict? {
      InsertedAppend(s.cacheOps, Evicted(step.key), task);
    }
  }

  lemma OthersKeepStage(cfg: Config, s: State, step: Step, task: Task)
    requires !Owns(step, task)
    ensures StageOf(Next(cfg, s, step), task) == StageOf(s, task)
  {
    match task
    case Request(id) =>
      if id < |s.requests| { OthersKeepRequest(cfg, s, step, id); }
    case Refresh(id) =>
      if id < |s.refreshes| { OthersKeepRefresh(cfg, s, step, id); }
  }

  lemma PhaseStageAfter(cfg: Config, s: State, r: Req)
    ensures PhaseStage(ReqAfter(cfg, s, r).phase) ==
            if r.phase.Upstream? && r.phase.rc.Inserting? then Over else PhaseStage(r.phase)
  {}

  lemma AdvanceStage(cfg: Config, s: State, task: Task)
    ensures var stage, stage' := StageOf(s, task), StageOf(Next(cfg, s, Advance(task)), task);
            if Inserts(s, Advance(task)) then stage.Holding? && stage' == Over else stage' == stage
  {
    match task
    case Request(id) =>
      if id < |s.requests| {
        EffectGrows(cfg, s, id, s.requests[id]);
        PhaseStageAfter(cfg, s, s.requests[id]);
      }
    case Refresh(id) =>
  }

  lemma ReplyStage(cfg: Config, s: State, task: Task, resolution: Resolution)
    ensures var stage, stage' := StageOf(s, task), StageOf(Next(cfg, s, Reply(task, resolution)), task);
            if Delivers(s, Reply(task, resolution)) then
              stage == Unasked &&
              stage' == if resolution.Resolved? then Holding(Visible(cfg, resolution.records)) else Over
            else stage' == stage
  {}

  lemma NextBalanced(cfg: Config, s: State, step: Step, task: Task)
    requires Balanced(cfg, s, task)
    ensures Balanced(cfg, Next(cfg, s, step), task)
  {
    RepliesAfter(cfg, s, step, task);
    InsertedAfter(cfg, s, step, task);
    if !Owns(step, task) {
      OthersKeepStage(cfg, s, step, task);
    } else if step.Advance? {
      AdvanceStage(cfg, s, task);
    } else {
      ReplyStage(cfg, s, task, step.resolution);
    }
  }

  // ----- theorems ----------------------------------------------------------------------------------------

  /** In every run, every request and every refresh gets at most one reply, inserts exactly one entry, of that reply's
      visible records, if the reply is a success and it has come to the insertion, and never inserts otherwise. */
  lemma {:induction false} OneInsertPerSuccess(cfg: Config, matcher: Matcher, t0: nat, steps: seq<Step>, task: Task)
    ensures Balanced(cfg, Exec(cfg, Init(matcher, t0), steps), task)
  {
    if steps != [] {
      OneInsertPerSuccess(cfg, matcher, t0, steps[..|steps| - 1], task);
      NextBalanced(cfg, Exec(cfg, Init(matcher, t0), steps[..|steps| - 1]), steps[|steps| - 1], task);
    }
  }

  /** Once a lookup or a refresh has failed, it has inserted nothing and never will. */
  lemma {:induction false} FailedLookupsNeverInsert(cfg: Config, matcher: Matcher, t0: nat, steps: seq<Step>,
                                                    task: Task)
    requires exists e :: Failed(e) in RepliesTo(Exec(cfg, Init(matcher, t0), steps).answers, task)
    ensures InsertedBy(Exec(cfg, Init(matcher, t0), steps).cacheOps, task) == []
  {
    OneInsertPerSuccess(cfg, matcher, t0, steps, task);
    var e :| Failed(e) in RepliesTo(Exec(cfg, Init(matcher, t0), steps).answers, task);
  }

  // ----- what a request makes of its reply ---------------------------------------------------------------

  /** The one reply was a success, with these records after the filter, by this upstream. */
  predicate RepliedWith(cfg: Config, replies: seq<Resolution>, rs: seq<Record>, upstream: string) {
    |replies| == 1 && replies[0].Resolved? && rs == Visible(cfg, replies[0].records) && upstream == replies[0].upstream
  }

  predicate OutcomeOwed(cfg: Config, o: Outcome, replies: seq<Resolution>) {
    match o
    case FromUpstream(rs, u) => RepliedWith(cfg, replies, rs, u)
    case NoAnswer(e) => replies == [Failed(e)]
    case _ => true
  }

  predicate PhaseOwed(cfg: Config, p: Phase, replies: seq<Resolution>) {
    match p
    case Upstream(rc) =>
      (match rc
       case Stamping(rs, u) => RepliedWith(cfg, replies, rs, u)
       case Inserting(e, u) => RepliedWith(cfg, replies, e.records, u)
       case _ => true)
    case Send(o) => OutcomeOwed(cfg, o, replies)
    case Log(o) => OutcomeOwed(cfg, o, replies)
    case Done(o) => OutcomeOwed(cfg, o, replies)
    case _ => true
  }

  lemma PhaseOwedAfter(cfg: Config, s: State, r: Req, replies: seq<Resolution>)
    requires PhaseOwed(cfg, r.phase, replies)
    ensures PhaseOwed(cfg, ReqAfter(cfg, s, r).phase, replies)
  {}

  lemma ReplyOwed(cfg: Config, s: State, id: nat, resolution: Resolution)
    requires id < |s.requests| && s.requests[id].phase == Upstream(Awaiting)
    ensures PhaseOwed(cfg, Next(cfg, s, Reply(Request(id), resolution)).requests[id].phase, [resolution])
  {}

  lemma NextOwed(cfg: Config, s: State, step: Step, id: nat)
    requires Balanced(cfg, s, Request(id))
    requires id < |s.requests| && PhaseOwed(cfg, s.requests[id].phase, RepliesTo(s.answers, Request(id)))
    ensures var s' := Next(cfg, s, step);
            id < |s'.requests| && PhaseOwed(cfg, s'.requests[id].phase, RepliesTo(s'.answers, Request(id)))
  {
    RepliesAfter(cfg, s, step, Request(id));
    if !Owns(step, Request(id)) {
      OthersKeepRequest(cfg, s, step, id);
    } else if step.Advance? {
      EffectGrows(cfg, s, id, s.requests[id]);
      PhaseOwedAfter(cfg, s, s.requests[id], RepliesTo(s.answers, Request(id)));
    } else if Delivers(s, step) {
      ReplyOwed(cfg, s, id, step.resolution);
    }
  }

  /** In every run: a request that is answered from upstream, or on its way there, got one reply, a success with those
      records, after the filter, and that url; one that is answered with an error got one reply, that error. */
  lemma {:induction false} OutcomeIsReply(cfg: Config, matcher: Matcher, t0: nat, steps: seq<Step>, id: nat)
    ensures var s := Exec(cfg, Init(matcher, t0), steps);
            id < |s.requests| ==> PhaseOwed(cfg, s.requests[id].phase, RepliesTo(s.answers, Request(id)))
  {
    if steps != [] {
      var before := Exec(cfg, Init(matcher, t0), steps[..|steps| - 1]);
      OutcomeIsReply(cfg, matcher, t0, steps[..|steps| - 1], id);
      OneInsertPerSuccess(cfg, matcher, t0, steps[..|steps| - 1], Request(id));
      if id < |before.requests| {
        NextOwed(cfg, before, steps[|steps| - 1], id);
      } else if id < |Exec(cfg, Init(matcher, t0), steps).requests| {
        NewRequestStarts(cfg, before, steps[|steps| - 1], id);
      }
    }
  }

  lemma NewRequestStarts(cfg: Config, s: State, step: Step, id: nat)
    requires |s.requests| <= id < |Next(cfg, s, step).requests|
    ensures Next(cfg, s, step).requests[id].phase == CountClient
  {}

  lemma {:induction false} ReplyWasAnswer(answers: seq<Answer>, task: Task, resolution: Resolution) returns (c: nat)
    requires resolution in RepliesTo(answers, task)
    ensures c < |answers| && answers[c].task == task && answers[c].resolution == resolution
  {
    var n := |answers| - 1;
    if answers[n].task == task && answers[n].resolution == resolution {
      c := n;
    } else {
      c := ReplyWasAnswer(answers[..n], task, resolution);
    }
  }
}
