/** What is served from the cache: provenance, age bound and agreement with the insertion history, over
    every interleaving of requests, refreshes, evictions, control actions and clock ticks. */
module CacheSafety {
  import opened Prelude
  import opened Dns
  import opened HandlerModel

  // ----- provenance ---------------------------------------------------------------------

  /** a is an upstream's answer for key, and rs is what is visible of its records. */
  predicate Gives(cfg: Config, a: Answer, key: Key, rs: seq<Record>) {
    a.key == key && a.resolution.Resolved? && rs == Visible(cfg, a.resolution.records)
  }

  /** The records, with that upstream's name, are what some upstream answered this very request or refresh. */
  ghost predicate Genuine(cfg: Config, s: State, task: Task, key: Key, rs: seq<Record>, upstream: string) {
    exists i :: 0 <= i < |s.answers| && s.answers[i].task == task && Gives(cfg, s.answers[i], key, rs) &&
                s.answers[i].resolution.upstream == upstream
  }

  /** The entry was made from an upstream's answer for this key, stamped at instant t, not before the answer. */
  predicate MadeFrom(cfg: Config, a: Answer, key: Key, e: Entry, t: nat) {
    Gives(cfg, a, key, e.records) && a.at <= t && e == MakeEntry(cfg, e.records, t)
  }

  ghost predicate Stamped(cfg: Config, s: State, key: Key, e: Entry) {
    exists i, t: nat :: 0 <= i < |s.answers| && t <= s.now && MadeFrom(cfg, s.answers[i], key, e, t)
  }

  /** The same, from the answer that this very request or refresh got. */
  ghost predicate StampedFor(cfg: Config, s: State, task: Task, key: Key, e: Entry) {
    exists i, t: nat :: 0 <= i < |s.answers| && t <= s.now && s.answers[i].task == task &&
                        MadeFrom(cfg, s.answers[i], key, e, t)
  }

  /** Records stamped at t are fresh at an instant before the configured minimum is over, or, if there are any, before
      each of them has run out. */
  predicate Lives(cfg: Config, rs: seq<Record>, t: nat, now: int) {
    now < t + cfg.minTtl * SECOND || (rs != [] && forall r :: r in rs ==> now < t + r.ttl * SECOND)
  }

  /** Served at h.at from an entry stamped at t: fresh as long as its records live, and then labelled with the whole
      seconds that they still will; stale up to the grace period after that. */
  predicate WithinAge(cfg: Config, h: Hit, t: nat) {
    if h.stale then
      !Lives(cfg, h.records, t, h.at) && Lives(cfg, h.records, t, h.at - cfg.graceSecs * SECOND) && h.ttl == 0
    else
      && Lives(cfg, h.records, t, h.at) && Lives(cfg, h.records, t, h.at + h.ttl * SECOND - 1)
      && !Lives(cfg, h.records, t, h.at + (h.ttl + 1) * SECOND - 1)
  }

  /** What an entry of these records, stamped at t, is good for at an instant. */
  predicate UsableAs(cfg: Config, rs: seq<Record>, t: nat, now: nat, found: Option<Hit>) {
    if Lives(cfg, rs, t, now) || Lives(cfg, rs, t, now - cfg.graceSecs * SECOND) then
      && found.Some? && found.value.records == rs && found.value.at == now
      && (found.value.stale <==> !Lives(cfg, rs, t, now)) && WithinAge(cfg, found.value, t)
    else found == None
  }

  lemma LivesForItsLifetime(cfg: Config, rs: seq<Record>, t: nat, now: int)
    ensures Lives(cfg, rs, t, now) <==> now < t + Lifetime(cfg, rs) * SECOND
  {
    if rs != [] {
      var r :| r in rs && MinTtl(rs) == r.ttl;
    }
  }

  /** An entry is fresh, stale or of no use exactly as the configured minimum, its records' times to live and the grace
      period say. */
  lemma EntryIsUsableAs(cfg: Config, rs: seq<Record>, t: nat, now: nat)
    ensures UsableAs(cfg, rs, t, now, Classified(MakeEntry(cfg, rs, t), now))
  {
    LivesForItsLifetime(cfg, rs, t, now);
    LivesForItsLifetime(cfg, rs, t, now - cfg.graceSecs * SECOND);
    var e := MakeEntry(cfg, rs, t);
    if now < e.validUntil {
      var ttl := (e.validUntil - now) / SECOND;
      assert ttl * SECOND <= e.validUntil - now < (ttl + 1) * SECOND;
      LivesForItsLifetime(cfg, rs, t, now + ttl * SECOND - 1);
      LivesForItsLifetime(cfg, rs, t, now + (ttl + 1) * SECOND - 1);
    }
  }

  ghost predicate ServedInTime(cfg: Config, s: State, key: Key, h: Hit) {
    exists i, t: nat ::
      0 <= i < |s.answers| && Gives(cfg, s.answers[i], key, h.records) &&
      s.answers[i].at <= t <= h.at <= s.now && WithinAge(cfg, h, t)
  }

  ghost predicate OutcomeSound(cfg: Config, s: State, task: Task, key: Key, o: Outcome) {
    match o
    case FromCache(hit) => ServedInTime(cfg, s, key, hit)
    case FromUpstream(rs, u) => Genuine(cfg, s, task, key, rs, u)
    case _ => true
  }

  ghost predicate RcSound(cfg: Config, s: State, task: Task, key: Key, rc: Rc) {
    match rc
    case Stamping(rs, u) => Genuine(cfg, s, task, key, rs, u)
    case Inserting(e, u) => StampedFor(cfg, s, task, key, e) && Genuine(cfg, s, task, key, e.records, u)
    case _ => true
  }

  ghost predicate PhaseSound(cfg: Config, s: State, task: Task, key: Key, p: Phase) {
    match p
    case Classify(e) => Stamped(cfg, s, key, e)
    case CountHit(hit) => ServedInTime(cfg, s, key, hit)
    case Spawn(hit) => ServedInTime(cfg, s, key, hit)
    case Upstream(rc) => RcSound(cfg, s, task, key, rc)
    case Send(o) => OutcomeSound(cfg, s, task, key, o)
    case Log(o) => OutcomeSound(cfg, s, task, key, o)
    case Done(o) => OutcomeSound(cfg, s, task, key, o)
    case _ => true
  }

  ghost predicate Sound(cfg: Config, s: State) {
    && (forall k :: k in s.cache ==> Stamped(cfg, s, k, s.cache[k]))
    && (forall i :: 0 <= i < |s.requests| ==>
                      PhaseSound(cfg, s, Request(i), s.requests[i].CacheKey(), s.requests[i].phase))
    && (forall i :: 0 <= i < |s.refreshes| ==> RcSound(cfg, s, Refresh(i), s.refreshes[i].key, s.refreshes[i].rc))
  }

  // ----- soundness survives growth ---------------------------------------------------------

  ghost predicate Later(s: State, s': State) { s.now <= s'.now && s.answers <= s'.answers }

  lemma GenuineLater(cfg: Config, s: State, s': State, task: Task, key: Key, rs: seq<Record>, u: string)
    requires Later(s, s') && Genuine(cfg, s, task, key, rs, u)
    ensures Genuine(cfg, s', task, key, rs, u)
  {
    var i :| 0 <= i < |s.answers| && s.answers[i].task == task && Gives(cfg, s.answers[i], key, rs) &&
             s.answers[i].resolution.upstream == u;
    assert s'.answers[i] == s.answers[i];
  }

  lemma StampedLater(cfg: Config, s: State, s': State, key: Key, e: Entry)
    requires Later(s, s') && Stamped(cfg, s, key, e)
    ensures Stamped(cfg, s', key, e)
  {
    var i, t: nat :| 0 <= i < |s.answers| && t <= s.now && MadeFrom(cfg, s.answers[i], key, e, t);
    assert s'.answers[i] == s.answers[i];
  }

  lemma StampedForLater(cfg: Config, s: State, s': State, task: Task, key: Key, e: Entry)
    requires Later(s, s') && StampedFor(cfg, s, task, key, e)
    ensures StampedFor(cfg, s', task, key, e) && Stamped(cfg, s', key, e)
  {
    var i, t: nat :| 0 <= i < |s.answers| && t <= s.now && s.answers[i].task == task &&
                     MadeFrom(cfg, s.answers[i], key, e, t);
    assert s'.answers[i] == s.answers[i];
  }

  lemma ServedLater(cfg: Config, s: State, s': State, key: Key, h: Hit)
    requires Later(s, s') && ServedInTime(cfg, s, key, h)
    ensures ServedInTime(cfg, s', key, h)
  {
    var i, t: nat :| 0 <= i < |s.answers| && Gives(cfg, s.answers[i], key, h.records) &&
                     s.answers[i].at <= t <= h.at <= s.now && WithinAge(cfg, h, t);
    assert s'.answers[i] == s.answers[i];
  }

  lemma RcLater(cfg: Config, s: State, s': State, task: Task, key: Key, rc: Rc)
    requires Later(s, s') && RcSound(cfg, s, task, key, rc)
    ensures RcSound(cfg, s', task, key, rc)
  {
    match rc
    case Stamping(rs, u) => GenuineLater(cfg, s, s', task, key, rs, u);
    case Inserting(e, u) =>
      StampedForLater(cfg, s, s', task, key, e);
      GenuineLater(cfg, s, s', task, key, e.records, u);
    case _ =>
  }

  lemma OutcomeLater(cfg: Config, s: State, s': State, task: Task, key: Key, o: Outcome)
    requires Later(s, s') && OutcomeSound(cfg, s, task, key, o)
    ensures OutcomeSound(cfg, s', task, key, o)
  {
    match o
    case FromCache(hit) => ServedLater(cfg, s, s', key, hit);
    case FromUpstream(rs, u) => GenuineLater(cfg, s, s', task, key, rs, u);
    case _ =>
  }

  lemma PhaseLater(cfg: Config, s: State, s': State, task: Task, key: Key, p: Phase)
    requires Later(s, s') && PhaseSound(cfg, s, task, key, p)
    ensures PhaseSound(cfg, s', task, key, p)
  {
    match p
    case Classify(e) => StampedLater(cfg, s, s', key, e);
    case CountHit(hit) => ServedLater(cfg, s, s', key, hit);
    case Spawn(hit) => ServedLater(cfg, s, s', key, hit);
    case Upstream(rc) => RcLater(cfg, s, s', task, key, rc);
    case Send(o) => OutcomeLater(cfg, s, s', task, key, o);
    case Log(o) => OutcomeLater(cfg, s, s', task, key, o);
    case Done(o) => OutcomeLater(cfg, s, s', task, key, o);
    case _ =>
  }

  // ----- one step -------------------------------------------------------------------------------

  lemma ClassifiedInTime(cfg: Config, s: State, key: Key, e: Entry)
    requires Stamped(cfg, s, key, e) && Classified(e, s.now).Some?
    ensures ServedInTime(cfg, s, key, Classified(e, s.now).value)
  {
    var i, t: nat :| 0 <= i < |s.answers| && t <= s.now && MadeFrom(cfg, s.answers[i], key, e, t);
    EntryIsUsableAs(cfg, e.records, t, s.now);
    assert WithinAge(cfg, Classified(e, s.now).value, t);
  }

  lemma StampingStamps(cfg: Config, s: State, task: Task, key: Key, rs: seq<Record>, u: string)
    requires Genuine(cfg, s, task, key, rs, u)
    requires forall i :: 0 <= i < |s.answers| ==> s.answers[i].at <= s.now
    ensures StampedFor(cfg, s, task, key, MakeEntry(cfg, rs, s.now))
  {
    var i :| 0 <= i < |s.answers| && s.answers[i].task == task && Gives(cfg, s.answers[i], key, rs) &&
             s.answers[i].resolution.upstream == u;
    assert MadeFrom(cfg, s.answers[i], key, MakeEntry(cfg, rs, s.now), s.now);
  }

  /** Answers are recorded when they happen. */
  ghost predicate AnswersInPast(s: State) {
    forall i :: 0 <= i < |s.answers| ==> s.answers[i].at <= s.now
  }

  lemma RcAfterSound(cfg: Config, s: State, task: Task, key: Key, rc: Rc)
    requires RcSound(cfg, s, task, key, rc) && AnswersInPast(s)
    ensures RcSound(cfg, s, task, key, RcAfter(cfg, s.now, rc))
  {
    match rc
    case Stamping(rs, u) => StampingStamps(cfg, s, task, key, rs, u);
    case _ =>
  }

  lemma ReqAfterSound(cfg: Config, s: State, id: nat, r: Req)
    requires Sound(cfg, s) && AnswersInPast(s) && PhaseSound(cfg, s, Request(id), r.CacheKey(), r.phase)
    ensures PhaseSound(cfg, s, Request(id), r.CacheKey(), ReqAfter(cfg, s, r).phase)
  {
    match r.phase
    case Classify(e) =>
      if Classified(e, s.now).Some? { ClassifiedInTime(cfg, s, r.CacheKey(), e); }
    case Upstream(rc) => RcAfterSound(cfg, s, Request(id), r.CacheKey(), rc);
    case _ =>
  }

  lemma AnswerGenuine(cfg: Config, s: State, task: Task, key: Key, rs: seq<Record>, u: string, s': State)
    requires s'.answers == s.answers + [Answer.Answer(task, key, Resolved(rs, u), s.now)]
    ensures Genuine(cfg, s', task, key, Visible(cfg, rs), u)
  {
    assert Gives(cfg, s'.answers[|s.answers|], key, Visible(cfg, rs));
  }

  /** Where a request or a refresh is in `resolve_and_cache`, if it is there. */
  function RcOf(s: State, task: Task): Option<Rc> {
    match task
    case Request(id) =>
      if id < |s.requests| && s.requests[id].phase.Upstream? then Some(s.requests[id].phase.rc) else None
    case Refresh(id) => if id < |s.refreshes| then Some(s.refreshes[id].rc) else None
  }

  function KeyOf(s: State, task: Task): Key
    requires RcOf(s, task).Some?
  {
    match task
    case Request(id) => s.requests[id].CacheKey()
    case Refresh(id) => s.refreshes[id].key
  }

  lemma SoundRc(cfg: Config, s: State, task: Task)
    requires Sound(cfg, s) && RcOf(s, task).Some?
    ensures RcSound(cfg, s, task, KeyOf(s, task), RcOf(s, task).value)
  {
    match task
    case Request(id) => assert PhaseSound(cfg, s, Request(id), s.requests[id].CacheKey(), s.requests[id].phase);
    case Refresh(id) =>
  }

  /** The step inserts: its request or refresh was about to. */
  predicate Inserts(s: State, step: Step) {
    step.Advance? && RcOf(s, step.task).Some? && RcOf(s, step.task).value.Inserting?
  }

  /** Cache and history change together, by an insertion or an eviction, or not at all. */
  lemma CacheMovesWithHistory(cfg: Config, s: State, step: Step)
    ensures var s' := Next(cfg, s, step);
            if Inserts(s, step) then
              var k, e := KeyOf(s, step.task), RcOf(s, step.task).value.entry;
              s'.cache == s.cache[k := e] && s'.cacheOps == s.cacheOps + [Insert(k, e, step.task)]
            else if step.Evict? then
              s'.cache == s.cache - {step.key} && s'.cacheOps == s.cacheOps + [Evicted(step.key)]
            else
              s'.cache == s.cache && s'.cacheOps == s.cacheOps
  {}

  lemma CacheStaysSound(cfg: Config, s: State, step: Step)
    requires Sound(cfg, s)
    ensures var s' := Next(cfg, s, step); forall k :: k in s'.cache ==> Stamped(cfg, s', k, s'.cache[k])
  {
    var s' := Next(cfg, s, step);
    NextGrows(cfg, s, step);
    CacheMovesWithHistory(cfg, s, step);
    if Inserts(s, step) {
      SoundRc(cfg, s, step.task);
      StampedForLater(cfg, s, s', step.task, KeyOf(s, step.task), RcOf(s, step.task).value.entry);
    }
    forall k | k in s'.cache && k in s.cache && s'.cache[k] == s.cache[k] ensures Stamped(cfg, s', k, s'.cache[k]) {
      StampedLater(cfg, s, s', k, s.cache[k]);
    }
  }

  lemma RequestStaysSound(cfg: Config, s: State, step: Step, id: nat)
    requires Sound(cfg, s) && AnswersInPast(s) && id < |s.requests|
    ensures var r' := Next(cfg, s, step).requests[id];
            PhaseSound(cfg, Next(cfg, s, step), Request(id), r'.CacheKey(), r'.phase)
  {
    var s', r := Next(cfg, s, step), s.requests[id];
    NextGrows(cfg, s, step);
    if !Owns(step, Request(id)) {
      OthersKeepRequest(cfg, s, step, id);
      PhaseLater(cfg, s, s', Request(id), r.CacheKey(), r.phase);
    } else if step.Advance? {
      ReqAfterSound(cfg, s, id, r);
      PhaseLater(cfg, s, s', Request(id), r.CacheKey(), ReqAfter(cfg, s, r).phase);
    } else if r.phase == Upstream(Awaiting) {
      match step.resolution
      case Resolved(rs, u) => AnswerGenuine(cfg, s, Request(id), r.CacheKey(), rs, u, s');
      case Failed(_) =>
    } else {
      PhaseLater(cfg, s, s', Request(id), r.CacheKey(), r.phase);
    }
  }

  lemma RefreshStaysSound(cfg: Config, s: State, step: Step, id: nat)
    requires Sound(cfg, s) && AnswersInPast(s) && id < |s.refreshes|
    ensures var f' := Next(cfg, s, step).refreshes[id];
            RcSound(cfg, Next(cfg, s, step), Refresh(id), f'.key, f'.rc)
  {
    var s', f := Next(cfg, s, step), s.refreshes[id];
    NextGrows(cfg, s, step);
    if !Owns(step, Refresh(id)) {
      OthersKeepRefresh(cfg, s, step, id);
      RcLater(cfg, s, s', Refresh(id), f.key, f.rc);
    } else if step.Advance? {
      RcAfterSound(cfg, s, Refresh(id), f.key, f.rc);
      RcLater(cfg, s, s', Refresh(id), f.key, RcAfter(cfg, s.now, f.rc));
    } else if f.rc == Awaiting {
      match step.resolution
      case Resolved(rs, u) => AnswerGenuine(cfg, s, Refresh(id), f.key, rs, u, s');
      case Failed(_) =>
    } else {
      RcLater(cfg, s, s', Refresh(id), f.key, f.rc);
    }
  }

  lemma NewTasksAreSound(cfg: Config, s: State, step: Step)
    ensures var s' := Next(cfg, s, step);
            && (forall i :: |s.requests| <= i < |s'.requests| ==> s'.requests[i].phase == CountClient)
            && (forall i :: |s.refreshes| <= i < |s'.refreshes| ==> s'.refreshes[i].rc == Calling)
  {}

  lemma AnswersStayInPast(cfg: Config, s: State, step: Step)
    requires AnswersInPast(s)
    ensures AnswersInPast(Next(cfg, s, step))
  {
    if step.Advance? && step.task.Request? && step.task.id < |s.requests| {
      EffectGrows(cfg, s, step.task.id, s.requests[step.task.id]);
    }
  }

  lemma NextSound(cfg: Config, s: State, step: Step)
    requires Sound(cfg, s) && AnswersInPast(s)
    ensures Sound(cfg, Next(cfg, s, step)) && AnswersInPast(Next(cfg, s, step))
  {
    var s' := Next(cfg, s, step);
    CacheStaysSound(cfg, s, step);
    AnswersStayInPast(cfg, s, step);
    NewTasksAreSound(cfg, s, step);
    forall i | 0 <= i < |s'.requests|
      ensures PhaseSound(cfg, s', Request(i), s'.requests[i].CacheKey(), s'.requests[i].phase)
    {
      if i < |s.requests| { RequestStaysSound(cfg, s, step, i); }
    }
    forall i | 0 <= i < |s'.refreshes| ensures RcSound(cfg, s', Refresh(i), s'.refreshes[i].key, s'.refreshes[i].rc) {
      if i < |s.refreshes| { RefreshStaysSound(cfg, s, step, i); }
    }
  }

  lemma {:induction false} RunSound(cfg: Config, matcher: Matcher, t0: nat, steps: seq<Step>)
    ensures Sound(cfg, Exec(cfg, Init(matcher, t0), steps)) && AnswersInPast(Exec(cfg, Init(matcher, t0), steps))
  {
    if steps != [] {
      RunSound(cfg, matcher, t0, steps[..|steps| - 1]);
      NextSound(cfg, Exec(cfg, Init(matcher, t0), steps[..|steps| - 1]), steps[|steps| - 1]);
    }
  }

  // ----- theorems ----------------------------------------------------------------------------------

  /** In every run, an answer served from the cache is exactly what is visible of some upstream answer for the
      same name and type, stamped at some T between that answer and the moment of service, and at that moment
      less than lifetime (fresh) or lifetime plus grace (stale) after T; a forwarded one is what an upstream
      answered that very request. */
  lemma {:induction false} CachedAnswersAreGenuineAndInTime(cfg: Config, matcher: Matcher, t0: nat, steps: seq<Step>,
                                                            id: nat)
    ensures var s := Exec(cfg, Init(matcher, t0), steps);
            id < |s.requests| && Decided(s.requests[id].phase).Some? ==>
              var o := Decided(s.requests[id].phase).value;
              && (o.FromCache? ==> ServedInTime(cfg, s, s.requests[id].CacheKey(), o.hit))
              && (o.FromUpstream? ==> Genuine(cfg, s, Request(id), s.requests[id].CacheKey(), o.records, o.upstream))
  {
    RunSound(cfg, matcher, t0, steps);
    var s := Exec(cfg, Init(matcher, t0), steps);
    if id < |s.requests| {
      assert PhaseSound(cfg, s, Request(id), s.requests[id].CacheKey(), s.requests[id].phase);
    }
  }

  predicate FreshAt(cfg: Config, rs: seq<Record>, stamp: nat, now: nat) {
    now < MakeEntry(cfg, rs, stamp).validUntil
  }

  /** An entry never counts as fresh beyond the time to live of one of its records exactly when the
      configured minimum exceeds none of them. */
  lemma FreshRespectsTtlsIff(cfg: Config, rs: seq<Record>, stamp: nat)
    requires rs != []
    ensures (forall now: nat, r :: FreshAt(cfg, rs, stamp, now) && r in rs ==> now < stamp + r.ttl * SECOND)
            <==> (forall r :: r in rs ==> cfg.minTtl <= r.ttl)
  {
    var least := MinTtl(rs);
    if r :| r in rs && r.ttl < cfg.minTtl {
      assert FreshAt(cfg, rs, stamp, stamp + r.ttl * SECOND);
    } else {
      var r :| r in rs && least == r.ttl;
      assert Lifetime(cfg, rs) == least;
    }
  }

  /** Served before any of its records has run out, counted from t. */
  predicate OutlivesNone(h: Hit, t: nat) { forall r :: r in h.records ==> h.at < t + r.ttl * SECOND }

  /** With a configured minimum that exceeds none of the records' times to live, in every run a fresh answer from the
      cache is served before any of them has run out, counted from an instant not before the upstream's answer. */
  lemma {:induction false} FreshHitsOutliveNoRecord(cfg: Config, matcher: Matcher, t0: nat, steps: seq<Step>, id: nat,
                                                    h: Hit)
    requires var s := Exec(cfg, Init(matcher, t0), steps);
             id < |s.requests| && Decided(s.requests[id].phase) == Some(FromCache(h)) && !h.stale
    requires forall r :: r in h.records ==> cfg.minTtl <= r.ttl
    ensures var s := Exec(cfg, Init(matcher, t0), steps);
            exists i, t: nat ::
              0 <= i < |s.answers| && Gives(cfg, s.answers[i], s.requests[id].CacheKey(), h.records) &&
              s.answers[i].at <= t <= h.at && OutlivesNone(h, t)
  {
    var s := Exec(cfg, Init(matcher, t0), steps);
    CachedAnswersAreGenuineAndInTime(cfg, matcher, t0, steps, id);
    var key := s.requests[id].CacheKey();
    var i, t: nat :| 0 <= i < |s.answers| && Gives(cfg, s.answers[i], key, h.records) &&
                     s.answers[i].at <= t <= h.at <= s.now && WithinAge(cfg, h, t);
    if h.records != [] {
      FreshRespectsTtlsIff(cfg, h.records, t);
      LivesForItsLifetime(cfg, h.records, t, h.at);
      assert FreshAt(cfg, h.records, t, h.at);
    }
    assert OutlivesNone(h, t);
  }

  // ----- the cache against its history ----------------------------------------------------------------

  /** The latest insert of key not followed by an eviction of it. */
  function Scan(ops: seq<CacheOp>, key: Key): Option<Entry> {
    if ops == [] then None
    else
      var last := ops[|ops| - 1];
      if last.key == key then (if last.Insert? then Some(last.entry) else None)
      else Scan(ops[..|ops| - 1], key)
  }

  function LookupIn(cache: map<Key, Entry>, key: Key): Option<Entry> {
    if key in cache then Some(cache[key]) else None
  }

  ghost predicate CacheIsScan(s: State) { forall k :: LookupIn(s.cache, k) == Scan(s.cacheOps, k) }

  lemma ScanAppend(ops: seq<CacheOp>, op: CacheOp, key: Key)
    ensures Scan(ops + [op], key) ==
            if op.key == key then (if op.Insert? then Some(op.entry) else None) else Scan(ops, key)
  {
    assert (ops + [op])[..|ops|] == ops;
  }

  lemma NextKeepsScan(cfg: Config, s: State, step: Step)
    requires CacheIsScan(s)
    ensures CacheIsScan(Next(cfg, s, step))
  {
    var s' := Next(cfg, s, step);
    CacheMovesWithHistory(cfg, s, step);
    if s'.cacheOps != s.cacheOps {
      var op := s'.cacheOps[|s.cacheOps|];
      assert s'.cacheOps == s.cacheOps + [op];
      forall k ensures LookupIn(s'.cache, k) == Scan(s'.cacheOps, k) {
        ScanAppend(s.cacheOps, op, k);
        assert LookupIn(s.cache, k) == Scan(s.cacheOps, k);
      }
    }
  }

  /** In every run a lookup is the history scan: what it yields at any instant is the latest surviving insert,
      classified by its two deadlines. */
  lemma {:induction false} LookupIsLatestInsert(cfg: Config, matcher: Matcher, t0: nat, steps: seq<Step>)
    ensures CacheIsScan(Exec(cfg, Init(matcher, t0), steps))
  {
    if steps != [] {
      LookupIsLatestInsert(cfg, matcher, t0, steps[..|steps| - 1]);
      NextKeepsScan(cfg, Exec(cfg, Init(matcher, t0), steps[..|steps| - 1]), steps[|steps| - 1]);
    }
  }

  ghost predicate HistorySound(cfg: Config, s: State) {
    forall j :: 0 <= j < |s.cacheOps| && s.cacheOps[j].Insert? ==>
                  StampedFor(cfg, s, s.cacheOps[j].inserter, s.cacheOps[j].key, s.cacheOps[j].entry)
  }

  lemma NextHistorySound(cfg: Config, s: State, step: Step)
    requires HistorySound(cfg, s) && Sound(cfg, s)
    ensures HistorySound(cfg, Next(cfg, s, step))
  {
    var s' := Next(cfg, s, step);
    NextGrows(cfg, s, step);
    CacheMovesWithHistory(cfg, s, step);
    forall j | 0 <= j < |s'.cacheOps| && s'.cacheOps[j].Insert?
      ensures StampedFor(cfg, s', s'.cacheOps[j].inserter, s'.cacheOps[j].key, s'.cacheOps[j].entry)
    {
      if j < |s.cacheOps| {
        var op := s.cacheOps[j];
        assert s'.cacheOps[j] == op;
        StampedForLater(cfg, s, s', op.inserter, op.key, op.entry);
      } else {
        SoundRc(cfg, s, step.task);
        StampedForLater(cfg, s, s', step.task, KeyOf(s, step.task), RcOf(s, step.task).value.entry);
      }
    }
  }

  /** Every insertion of the whole run, later overwritten or evicted as it may be, was of an entry made from the
      successful answer that the inserting request or refresh itself got for that key, stamped after it. */
  lemma {:induction false} EveryInsertIsStamped(cfg: Config, matcher: Matcher, t0: nat, steps: seq<Step>)
    ensures HistorySound(cfg, Exec(cfg, Init(matcher, t0), steps))
  {
    if steps != [] {
      EveryInsertIsStamped(cfg, matcher, t0, steps[..|steps| - 1]);
      RunSound(cfg, matcher, t0, steps[..|steps| - 1]);
      NextHistorySound(cfg, Exec(cfg, Init(matcher, t0), steps[..|steps| - 1]), steps[|steps| - 1]);
    }
  }

  /** The latest insert of key, evicted or not. */
  function LastInsert(ops: seq<CacheOp>, key: Key): Option<Entry> {
    if ops == [] then None
    else
      var last := ops[|ops| - 1];
      if last.key == key && last.Insert? then Some(last.entry) else LastInsert(ops[..|ops| - 1], key)
  }

  lemma {:induction false} OnlyEvictStepsEvict(cfg: Config, matcher: Matcher, t0: nat, steps: seq<Step>, key: Key)
    requires Evict(key) !in steps
    ensures Evicted(key) !in Exec(cfg, Init(matcher, t0), steps).cacheOps
  {
    if steps != [] {
      var before := steps[..|steps| - 1];
      OnlyEvictStepsEvict(cfg, matcher, t0, before, key);
      CacheMovesWithHistory(cfg, Exec(cfg, Init(matcher, t0), before), steps[|steps| - 1]);
    }
  }

  lemma {:induction false} ScanWithoutEviction(ops: seq<CacheOp>, key: Key)
    requires Evicted(key) !in ops
    ensures Scan(ops, key) == LastInsert(ops, key)
  {
    if ops != [] { ScanWithoutEviction(ops[..|ops| - 1], key); }
  }

  /** A key that is never evicted is always answered by its latest insert, as long as that is not
      past its second deadline. */
  lemma {:induction false} UnevictedKeyIsAnswered(cfg: Config, matcher: Matcher, t0: nat, steps: seq<Step>, key: Key)
    requires Evict(key) !in steps
    ensures var s := Exec(cfg, Init(matcher, t0), steps);
            && LookupIn(s.cache, key) == LastInsert(s.cacheOps, key)
            && (LastInsert(s.cacheOps, key).Some? && s.now < LastInsert(s.cacheOps, key).value.staleUntil ==>
                  Classified(s.cache[key], s.now).Some?)
  {
    var s := Exec(cfg, Init(matcher, t0), steps);
    LookupIsLatestInsert(cfg, matcher, t0, steps);
    OnlyEvictStepsEvict(cfg, matcher, t0, steps, key);
    ScanWithoutEviction(s.cacheOps, key);
    assert LookupIn(s.cache, key) == Scan(s.cacheOps, key);
  }

  // ----- what a lookup leads to ---------------------------------------------------------------------------

  /** None of these steps is request id's own. */
  ghost predicate Aside(steps: seq<Step>, id: nat) { forall step :: step in steps ==> !Owns(step, Request(id)) }

  lemma {:induction false} KeptAside(cfg: Config, s: State, steps: seq<Step>, id: nat)
    requires id < |s.requests| && Aside(steps, id)
    ensures id < |Exec(cfg, s, steps).requests| && Exec(cfg, s, steps).requests[id] == s.requests[id]
  {
    if steps != [] {
      var n := |steps| - 1;
      KeptAside(cfg, s, steps[..n], id);
      assert steps[n] in steps;
      OthersKeepRequest(cfg, Exec(cfg, s, steps[..n]), steps[n], id);
    }
  }

  /** The request goes on to serve what it found, or upstream. */
  predicate GoesOnWith(p: Phase, found: Option<Hit>) {
    match found
    case Some(hit) => p == CountHit(hit)
    case None => p == Upstream(Calling)
  }

  /** After the request's own lookup, any steps of others and its own reading of the clock: it has a hit exactly if the
      entry e that it read, made from an answer for its very name and type, is still good for one. */
  ghost predicate ServesEntry(cfg: Config, s: State, key: Key, e: Entry, now: nat, p: Phase) {
    exists j, t: nat, found ::
      0 <= j < |s.answers| && t <= s.now && MadeFrom(cfg, s.answers[j], key, e, t) &&
      UsableAs(cfg, e.records, t, now, found) && GoesOnWith(p, found)
  }

  /** In every run: a lookup that finds nothing inserted and not evicted since goes upstream; one that does serves the
      latest such entry, fresh or stale, if its times to live, the configured minimum and the grace period allow. */
  lemma {:induction false} LookupServesIffUsable(cfg: Config, matcher: Matcher, t0: nat, steps: seq<Step>, id: nat,
                                                between: seq<Step>)
    requires var s := Exec(cfg, Init(matcher, t0), steps); id < |s.requests| && s.requests[id].phase == Lookup
    requires Aside(between, id)
    ensures var s := Exec(cfg, Init(matcher, t0), steps);
            var key := Key(s.requests[id].name, s.requests[id].qtype);
            var read := Exec(cfg, Next(cfg, s, Advance(Request(id))), between);
            && id < |read.requests|
            && (Evict(key) !in steps ==> Scan(s.cacheOps, key) == LastInsert(s.cacheOps, key))
            && match Scan(s.cacheOps, key)
               case None => read.requests[id].phase == Upstream(Calling)
               case Some(e) =>
                 ServesEntry(cfg, s, key, e, read.now, Next(cfg, read, Advance(Request(id))).requests[id].phase)
  {
    var s := Exec(cfg, Init(matcher, t0), steps);
    var key := s.requests[id].CacheKey();
    var looked := Next(cfg, s, Advance(Request(id)));
    LookupIsLatestInsert(cfg, matcher, t0, steps);
    assert LookupIn(s.cache, key) == Scan(s.cacheOps, key);
    if Evict(key) !in steps {
      OnlyEvictStepsEvict(cfg, matcher, t0, steps, key);
      ScanWithoutEviction(s.cacheOps, key);
    }
    LookupStep(cfg, s, id);
    KeptAside(cfg, looked, between, id);
    if key in s.cache {
      RunSound(cfg, matcher, t0, steps);
      ReadEntryServes(cfg, s, key, s.cache[key], Exec(cfg, looked, between), id);
    }
  }

  lemma LookupStep(cfg: Config, s: State, id: nat)
    requires id < |s.requests| && s.requests[id].phase == Lookup
    ensures var key, s' := s.requests[id].CacheKey(), Next(cfg, s, Advance(Request(id)));
            id < |s'.requests| &&
            s'.requests[id].phase == if key in s.cache then Classify(s.cache[key]) else Upstream(Calling)
  {}

  lemma ReadEntryServes(cfg: Config, s: State, key: Key, e: Entry, read: State, id: nat)
    requires Stamped(cfg, s, key, e) && id < |read.requests| && read.requests[id].phase == Classify(e)
    ensures ServesEntry(cfg, s, key, e, read.now, Next(cfg, read, Advance(Request(id))).requests[id].phase)
  {
    var j, t: nat :| 0 <= j < |s.answers| && t <= s.now && MadeFrom(cfg, s.answers[j], key, e, t);
    EntryIsUsableAs(cfg, e.records, t, read.now);
    assert UsableAs(cfg, e.records, t, read.now, Classified(e, read.now));
    assert GoesOnWith(Next(cfg, read, Advance(Request(id))).requests[id].phase, Classified(e, read.now));
  }

  // ----- what a served entry was when it was read ---------------------------------------------------------

  /** Step i of the run is request id's own lookup, which at that moment finds e to be the latest surviving insert
      of its key. */
  ghost predicate ReadAt(cfg: Config, s0: State, steps: seq<Step>, i: nat, id: nat, key: Key, e: Entry) {
    && i < |steps| && steps[i] == Advance(Request(id))
    && var s := Exec(cfg, s0, steps[..i]);
       id < |s.requests| && s.requests[id].phase == Lookup && s.requests[id].CacheKey() == key &&
       Scan(s.cacheOps, key) == Some(e)
  }

  predicate HoldsHit(p: Phase, h: Hit) {
    p == CountHit(h) || p == Spawn(h) || Decided(p) == Some(FromCache(h))
  }

  lemma EntriesComeFromLookup(cfg: Config, s: State, step: Step, id: nat, e: Entry)
    requires id < |Next(cfg, s, step).requests| && Next(cfg, s, step).requests[id].phase == Classify(e)
    requires !(id < |s.requests| && s.requests[id].phase == Classify(e))
    ensures id < |s.requests| && step == Advance(Request(id)) && s.requests[id].phase == Lookup
    ensures LookupIn(s.cache, s.requests[id].CacheKey()) == Some(e)
  {
    if id < |s.requests| && !Owns(step, Request(id)) { OthersKeepRequest(cfg, s, step, id); }
  }

  lemma HitAfterClassify(cfg: Config, s: State, r: Req, h: Hit)
    requires HoldsHit(ReqAfter(cfg, s, r).phase, h) && !HoldsHit(r.phase, h)
    ensures r.phase.Classify? && Classified(r.phase.entry, h.at) == Some(h)
  {}

  lemma HitsComeFromClassify(cfg: Config, s: State, step: Step, id: nat, h: Hit)
    requires id < |Next(cfg, s, step).requests| && HoldsHit(Next(cfg, s, step).requests[id].phase, h)
    requires !(id < |s.requests| && HoldsHit(s.requests[id].phase, h))
    ensures id < |s.requests| && s.requests[id].phase.Classify?
    ensures Classified(s.requests[id].phase.entry, h.at) == Some(h)
  {
    if id < |s.requests| {
      if !Owns(step, Request(id)) {
        OthersKeepRequest(cfg, s, step, id);
      } else if step.Advance? {
        HitAfterClassify(cfg, s, s.requests[id], h);
      }
    }
  }

  lemma ReadEarlier(cfg: Config, s0: State, steps: seq<Step>, i: nat, id: nat, key: Key, e: Entry)
    requires steps != [] && ReadAt(cfg, s0, steps[..|steps| - 1], i, id, key, e)
    ensures ReadAt(cfg, s0, steps, i, id, key, e)
  {
    assert steps[..|steps| - 1][..i] == steps[..i];
  }

  lemma {:induction false} ClassifiedEntryWasRead(cfg: Config, matcher: Matcher, t0: nat, steps: seq<Step>, id: nat,
                                                  e: Entry)
    requires var s := Exec(cfg, Init(matcher, t0), steps); id < |s.requests| && s.requests[id].phase == Classify(e)
    ensures exists i: nat ::
              ReadAt(cfg, Init(matcher, t0), steps, i, id,
                     Exec(cfg, Init(matcher, t0), steps).requests[id].CacheKey(), e)
  {
    var s0, n := Init(matcher, t0), |steps| - 1;
    var before := Exec(cfg, s0, steps[..n]);
    var key := Exec(cfg, s0, steps).requests[id].CacheKey();
    if id < |before.requests| { NextKeepsTasks(cfg, before, steps[n]); }
    if id < |before.requests| && before.requests[id].phase == Classify(e) {
      ClassifiedEntryWasRead(cfg, matcher, t0, steps[..n], id, e);
      assert before.requests[id].CacheKey() == key;
      var i: nat :| ReadAt(cfg, s0, steps[..n], i, id, key, e);
      ReadEarlier(cfg, s0, steps, i, id, key, e);
    } else {
      EntriesComeFromLookup(cfg, before, steps[n], id, e);
      LookupIsLatestInsert(cfg, matcher, t0, steps[..n]);
      assert before.requests[id].CacheKey() == key;
      assert ReadAt(cfg, s0, steps, n, id, key, e);
    }
  }

  /** In every run, whatever a request is served from the cache is the classification, at the moment of service,
      of the entry that was the latest surviving insert of its key when the request looked it up. */
  lemma {:induction false} ServedEntryWasLatestInsert(cfg: Config, matcher: Matcher, t0: nat, steps: seq<Step>,
                                                      id: nat, h: Hit)
    requires var s := Exec(cfg, Init(matcher, t0), steps); id < |s.requests| && HoldsHit(s.requests[id].phase, h)
    ensures exists i: nat, e ::
              ReadAt(cfg, Init(matcher, t0), steps, i, id,
                     Exec(cfg, Init(matcher, t0), steps).requests[id].CacheKey(), e) &&
              Classified(e, h.at) == Some(h)
  {
    var s0, n := Init(matcher, t0), |steps| - 1;
    var before := Exec(cfg, s0, steps[..n]);
    var key := Exec(cfg, s0, steps).requests[id].CacheKey();
    if id < |before.requests| { NextKeepsTasks(cfg, before, steps[n]); }
    if id < |before.requests| && HoldsHit(before.requests[id].phase, h) {
      ServedEntryWasLatestInsert(cfg, matcher, t0, steps[..n], id, h);
      assert before.requests[id].CacheKey() == key;
      var i: nat, e :| ReadAt(cfg, s0, steps[..n], i, id, key, e) && Classified(e, h.at) == Some(h);
      ReadEarlier(cfg, s0, steps, i, id, key, e);
    } else {
      HitsComeFromClassify(cfg, before, steps[n], id, h);
      var e := before.requests[id].phase.entry;
      ClassifiedEntryWasRead(cfg, matcher, t0, steps[..n], id, e);
      assert before.requests[id].CacheKey() == key;
      var i: nat :| ReadAt(cfg, s0, steps[..n], i, id, key, e);
      ReadEarlier(cfg, s0, steps, i, id, key, e);
    }
  }
}
