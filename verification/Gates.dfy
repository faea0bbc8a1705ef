/** The order of the gates: IPv6, local records, blocklist, cache, upstream; over runs in which the matcher is
    swapped and blocking is paused and resumed at any moment. */
module Gates {
  import opened Prelude
  import opened Dns
  import opened HandlerModel
  import AppStates

  // ----- IPv6 disabled means no AAAA anywhere --------------------------------------------

  ghost predicate Clean(rs: seq<Record>) { forall r :: r in rs ==> !IsAAAA(r) }

  lemma {:induction false} WithoutAAAAIsClean(rs: seq<Record>)
    ensures Clean(WithoutAAAA(rs))
    ensures forall r :: r in WithoutAAAA(rs) <==> r in rs && !IsAAAA(r)
  {
    if rs != [] {
      WithoutAAAAIsClean(rs[..|rs| - 1]);
      assert forall r :: r in rs <==> r in rs[..|rs| - 1] || r == rs[|rs| - 1];
    }
  }

  /** Behind the IPv6 gate no request asks for AAAA, and nothing a request holds contains one. */
  ghost predicate OutcomeClean(qtype: RecordType, o: Outcome) {
    match o
    case Ipv6Off => true
    case FromLocal(rs) => Clean(rs)
    case Sunk(_) => qtype != AAAA
    case FromCache(hit) => Clean(hit.records)
    case FromUpstream(rs, _) => Clean(rs)
    case NoAnswer(_) => true
  }

  ghost predicate RcClean(rc: Rc) {
    match rc
    case Stamping(rs, _) => Clean(rs)
    case Inserting(e, _) => Clean(e.records)
    case _ => true
  }

  ghost predicate PhaseClean(qtype: RecordType, p: Phase) {
    match p
    case CountClient => true
    case CountDomain => true
    case Ipv6Gate => true
    case Classify(e) => qtype != AAAA && Clean(e.records)
    case CountHit(hit) => qtype != AAAA && Clean(hit.records)
    case Spawn(hit) => qtype != AAAA && Clean(hit.records)
    case Upstream(rc) => qtype != AAAA && RcClean(rc)
    case Send(o) => OutcomeClean(qtype, o)
    case Log(o) => OutcomeClean(qtype, o)
    case Done(o) => OutcomeClean(qtype, o)
    case _ => qtype != AAAA
  }

  ghost predicate NoIpv6(s: State) {
    && (forall k :: k in s.cache ==> Clean(s.cache[k].records))
    && (forall i :: 0 <= i < |s.requests| ==> PhaseClean(s.requests[i].qtype, s.requests[i].phase))
    && (forall i :: 0 <= i < |s.refreshes| ==> RcClean(s.refreshes[i].rc))
    && (forall i :: 0 <= i < |s.sent| ==> Clean(s.sent[i].response.answers))
  }

  lemma LocalMatchHasItsType(cfg: Config, name: string, qtype: RecordType)
    requires LocalMatch(cfg, name, qtype)
    ensures |LocalTable(cfg)[name]| == 1 && LocalTable(cfg)[name][0].RecordType() == qtype
    ensures qtype == A || qtype == AAAA
  {}

  lemma ReqAfterClean(cfg: Config, s: State, r: Req)
    requires cfg.disableIpv6 && NoIpv6(s) && PhaseClean(r.qtype, r.phase)
    ensures PhaseClean(r.qtype, ReqAfter(cfg, s, r).phase)
  {
    if r.phase == LocalGate && LocalMatch(cfg, r.name, r.qtype) { LocalMatchHasItsType(cfg, r.name, r.qtype); }
  }

  lemma ResponseClean(cfg: Config, r: Req, o: Outcome)
    requires OutcomeClean(r.qtype, o)
    ensures Clean(ResponseFor(cfg, r, o).answers)
  {}

  lemma EffectClean(cfg: Config, s: State, id: nat, r: Req)
    requires NoIpv6(s) && PhaseClean(r.qtype, r.phase)
    ensures NoIpv6(Effect(cfg, s, id, r))
  {
    if r.phase.Send? { ResponseClean(cfg, r, r.phase.outcome); }
  }

  lemma RequestStepClean(cfg: Config, s: State, id: nat)
    requires cfg.disableIpv6 && NoIpv6(s) && id < |s.requests|
    ensures NoIpv6(AdvanceRequest(cfg, s, id))
  {
    var r := s.requests[id];
    EffectGrows(cfg, s, id, r);
    EffectClean(cfg, s, id, r);
    ReqAfterClean(cfg, s, r);
    ReqAfterKeepsIdentity(cfg, s, r);
  }

  lemma ReplyClean(cfg: Config, s: State, task: Task, resolution: Resolution)
    requires cfg.disableIpv6 && NoIpv6(s)
    ensures NoIpv6(Next(cfg, s, Reply(task, resolution)))
  {
    if resolution.Resolved? { WithoutAAAAIsClean(resolution.records); }
  }

  lemma NextClean(cfg: Config, s: State, step: Step)
    requires cfg.disableIpv6 && NoIpv6(s)
    ensures NoIpv6(Next(cfg, s, step))
  {
    match step
    case Advance(task) =>
      if task.Request? && task.id < |s.requests| { RequestStepClean(cfg, s, task.id); }
    case Reply(task, resolution) =>
      ReplyClean(cfg, s, task, resolution);
    case _ =>
  }

  /** With IPv6 disabled, in every run no cache entry, no task and no response on any path ever carries an AAAA
      record. */
  lemma {:induction false} Ipv6NeverLeaks(cfg: Config, matcher: Matcher, t0: nat, steps: seq<Step>)
    requires cfg.disableIpv6
    ensures NoIpv6(Exec(cfg, Init(matcher, t0), steps))
  {
    if steps != [] {
      Ipv6NeverLeaks(cfg, matcher, t0, steps[..|steps| - 1]);
      NextClean(cfg, Exec(cfg, Init(matcher, t0), steps[..|steps| - 1]), steps[|steps| - 1]);
    }
  }

  /** The filter removes AAAA records and nothing else: other types are answered in full. */
  lemma {:induction false} FilterKeepsTheRest(rs: seq<Record>)
    ensures WithoutAAAA(rs) == rs <==> Clean(rs)
  {
    WithoutAAAAIsClean(rs);
    if rs != [] {
      var n := |rs| - 1;
      FilterKeepsTheRest(rs[..n]);
      assert rs == rs[..n] + [rs[n]];
      if Clean(rs) { assert Clean(rs[..n]); assert !IsAAAA(rs[n]); }
    }
  }

  /** It is taken record by record, in order: with IPv6 disabled every IPv6 address goes, otherwise nothing does. */
  lemma {:induction false} FilterIsPointwise(cfg: Config, a: seq<Record>, b: seq<Record>, r: Record)
    ensures Visible(cfg, []) == []
    ensures Visible(cfg, [r]) == if cfg.disableIpv6 && r.data.V6? then [] else [r]
    ensures Visible(cfg, a + b) == Visible(cfg, a) + Visible(cfg, b)
  {
    assert [r][..0] == [];
    FilterConcat(a, b);
  }

  lemma {:induction false} FilterConcat(a: seq<Record>, b: seq<Record>)
    ensures WithoutAAAA(a + b) == WithoutAAAA(a) + WithoutAAAA(b)
  {
    if b == [] {
      assert a + b == a;
    } else {
      var n := |b| - 1;
      FilterConcat(a, b[..n]);
      assert (a + b)[..|a + b| - 1] == a + b[..n];
    }
  }

  // ----- the local gate -----------------------------------------------------------------------

  /** Phases only reached after the local table had no record of the asked type. */
  predicate PastLocal(p: Phase) {
    match p
    case CountClient => false
    case CountDomain => false
    case Ipv6Gate => false
    case LocalGate => false
    case Send(o) => !o.Ipv6Off? && !o.FromLocal?
    case Log(o) => !o.Ipv6Off? && !o.FromLocal?
    case Done(o) => !o.Ipv6Off? && !o.FromLocal?
    case _ => true
  }

  /** The earlier gates, as facts about where a request can be. */
  ghost predicate GatesKept(cfg: Config, r: Req) {
    && (PastLocal(r.phase) ==> !LocalMatch(cfg, r.name, r.qtype) && !(cfg.disableIpv6 && r.qtype == AAAA))
    && (Decided(r.phase).Some? && Decided(r.phase).value.FromLocal? ==>
          LocalMatch(cfg, r.name, r.qtype) && Decided(r.phase).value.records == LocalTable(cfg)[r.name] &&
          !(cfg.disableIpv6 && r.qtype == AAAA))
    && (Decided(r.phase) == Some(Ipv6Off) ==> cfg.disableIpv6 && r.qtype == AAAA)
    && (r.phase == LocalGate ==> !(cfg.disableIpv6 && r.qtype == AAAA))
  }

  lemma ReqAfterKeepsGates(cfg: Config, s: State, r: Req)
    requires GatesKept(cfg, r)
    ensures GatesKept(cfg, ReqAfter(cfg, s, r))
  {}

  lemma NextKeepsGates(cfg: Config, s: State, step: Step, id: nat)
    requires id < |s.requests| && GatesKept(cfg, s.requests[id])
    ensures id < |Next(cfg, s, step).requests| && GatesKept(cfg, Next(cfg, s, step).requests[id])
  {
    if Owns(step, Request(id)) {
      EffectGrows(cfg, s, id, s.requests[id]);
      ReqAfterKeepsGates(cfg, s, s.requests[id]);
    } else {
      OthersKeepRequest(cfg, s, step, id);
    }
  }

  /** In every run: a request answered by the IPv6 gate asked for AAAA with IPv6 disabled, one answered locally
      has a local record of the asked type and gets the table's, and one that got past both has neither. */
  lemma {:induction false} EarlyGatesAreExact(cfg: Config, matcher: Matcher, t0: nat, steps: seq<Step>, id: nat)
    ensures var s := Exec(cfg, Init(matcher, t0), steps);
            id < |s.requests| ==> GatesKept(cfg, s.requests[id])
  {
    if steps != [] {
      var before := Exec(cfg, Init(matcher, t0), steps[..|steps| - 1]);
      EarlyGatesAreExact(cfg, matcher, t0, steps[..|steps| - 1], id);
      if id < |before.requests| { NextKeepsGates(cfg, before, steps[|steps| - 1], id); }
    }
  }

  // ----- the block gate ------------------------------------------------------------------------

  /** Phases only reached by a request that was let past the blocklist. */
  predicate LetPast(p: Phase) {
    match p
    case Lookup => true
    case Classify(_) => true
    case CountHit(_) => true
    case Spawn(_) => true
    case Upstream(_) => true
    case Send(o) => o.FromCache? || o.FromUpstream? || o.NoAnswer?
    case Log(o) => o.FromCache? || o.FromUpstream? || o.NoAnswer?
    case Done(o) => o.FromCache? || o.FromUpstream? || o.NoAnswer?
    case _ => false
  }

  /** In state s request id is at its pause check while blocking is paused, or at its blocklist check while the
      current matcher has nothing against its name. */
  predicate GateOpen(s: State, id: nat, name: string) {
    id < |s.requests| && s.requests[id].name == name &&
    ((s.requests[id].phase == PauseGate && !AppStates.Active(s.pausedUntil, s.now)) ||
     (s.requests[id].phase == BlockGate && s.matcher(name).None?))
  }

  ghost predicate OpenedAt(cfg: Config, s0: State, steps: seq<Step>, i: nat, id: nat, name: string) {
    i < |steps| && steps[i] == Advance(Request(id)) && GateOpen(Exec(cfg, s0, steps[..i]), id, name)
  }

  lemma OnlyTheGateLetsPast(cfg: Config, s: State, step: Step, id: nat)
    requires id < |Next(cfg, s, step).requests| && LetPast(Next(cfg, s, step).requests[id].phase)
    requires !(id < |s.requests| && LetPast(s.requests[id].phase))
    ensures step == Advance(Request(id)) && GateOpen(s, id, Next(cfg, s, step).requests[id].name)
  {
    if id < |s.requests| {
      if Owns(step, Request(id)) {
        EffectGrows(cfg, s, id, s.requests[id]);
      } else {
        OthersKeepRequest(cfg, s, step, id);
      }
    }
  }

  /** In every run, a request that ends as cached, forwarded or failed (or is on its way there) took its own
      pause check while blocking was paused or its own blocklist check while the matcher then in
      force did not match; whatever was swapped, paused, resumed or cached in between. */
  lemma {:induction false} ServedOnlyThroughOpenGate(cfg: Config, s0: State, steps: seq<Step>, id: nat)
    requires s0.requests == []
    requires var s := Exec(cfg, s0, steps); id < |s.requests| && LetPast(s.requests[id].phase)
    ensures exists i: nat :: OpenedAt(cfg, s0, steps, i, id, Exec(cfg, s0, steps).requests[id].name)
  {
    var n := |steps| - 1;
    var before := Exec(cfg, s0, steps[..n]);
    var name := Exec(cfg, s0, steps).requests[id].name;
    if id < |before.requests| && LetPast(before.requests[id].phase) {
      ServedOnlyThroughOpenGate(cfg, s0, steps[..n], id);
      NextKeepsTasks(cfg, before, steps[n]);
      assert before.requests[id].CacheKey() == Exec(cfg, s0, steps).requests[id].CacheKey();
      var i: nat :| OpenedAt(cfg, s0, steps[..n], i, id, name);
      assert steps[..n][..i] == steps[..i];
      assert OpenedAt(cfg, s0, steps, i, id, name);
    } else {
      OnlyTheGateLetsPast(cfg, before, steps[n], id);
      assert OpenedAt(cfg, s0, steps, n, id, name);
    }
  }

  /** The request is being sunk, or was, under this list's id. */
  predicate SinkingAs(p: Phase, source: u8) {
    p == CountBlocked(source) || p == CountSource(source) || p == CountClientBlock(source) ||
    p == CountDomainBlock(source) || Decided(p) == Some(Sunk(source))
  }

  lemma SinkingPhaseAfter(cfg: Config, s: State, r: Req, source: u8)
    requires SinkingAs(r.phase, source)
    ensures SinkingAs(ReqAfter(cfg, s, r).phase, source)
  {}

  lemma SinkingGoesOn(cfg: Config, s: State, step: Step, id: nat, source: u8)
    requires id < |s.requests| && SinkingAs(s.requests[id].phase, source)
    ensures id < |Next(cfg, s, step).requests| && SinkingAs(Next(cfg, s, step).requests[id].phase, source)
  {
    if !Owns(step, Request(id)) {
      OthersKeepRequest(cfg, s, step, id);
    } else if step.Advance? {
      SinkingPhaseAfter(cfg, s, s.requests[id], source);
    } else {
      assert s.requests[id].phase != Upstream(Awaiting);
    }
  }

  lemma {:induction false} SinkingIsFinal(cfg: Config, s: State, id: nat, steps: seq<Step>, source: u8)
    requires id < |s.requests| && SinkingAs(s.requests[id].phase, source)
    ensures id < |Exec(cfg, s, steps).requests| && SinkingAs(Exec(cfg, s, steps).requests[id].phase, source)
  {
    if steps != [] {
      var n := |steps| - 1;
      SinkingIsFinal(cfg, s, id, steps[..n], source);
      SinkingGoesOn(cfg, Exec(cfg, s, steps[..n]), steps[n], id, source);
    }
  }

  /** Once its blocklist check matches, a request ends blocked under that very id, however the matcher, the pause
      state and the cache change afterwards; so an answer cached during a pause never reaches it. */
  lemma {:induction false} MatchedRequestIsSunk(cfg: Config, s: State, id: nat, steps: seq<Step>)
    requires id < |s.requests| && s.requests[id].phase == BlockGate && s.matcher(s.requests[id].name).Some?
    ensures var s' := Exec(cfg, Next(cfg, s, Advance(Request(id))), steps);
            id < |s'.requests| && SinkingAs(s'.requests[id].phase, s.matcher(s.requests[id].name).value)
  {
    EffectGrows(cfg, s, id, s.requests[id]);
    SinkingIsFinal(cfg, Next(cfg, s, Advance(Request(id))), id, steps, s.matcher(s.requests[id].name).value);
  }

  // ----- pausing over runs -------------------------------------------------------------------------

  predicate IsControl(step: Step) { step.PauseFor? || step.ResumeNow? }

  ghost predicate LastControlAt(steps: seq<Step>, i: nat) {
    i < |steps| && IsControl(steps[i]) && forall j :: i < j < |steps| ==> !IsControl(steps[j])
  }

  /** The last control step is the pause at position i, and its time has not run out. */
  ghost predicate PausedSince(cfg: Config, s0: State, steps: seq<Step>, i: nat) {
    && LastControlAt(steps, i) && steps[i].PauseFor?
    && Exec(cfg, s0, steps).now < Exec(cfg, s0, steps[..i]).now + steps[i].duration
  }

  lemma OnlyControlsPause(cfg: Config, s: State, step: Step)
    requires !IsControl(step)
    ensures Next(cfg, s, step).pausedUntil == s.pausedUntil
  {
    if step.Advance? && step.task.Request? && step.task.id < |s.requests| {
      EffectGrows(cfg, s, step.task.id, s.requests[step.task.id]);
    }
  }

  lemma ControlSetsDeadline(cfg: Config, s: State, step: Step)
    requires IsControl(step)
    ensures Next(cfg, s, step).pausedUntil == if step.PauseFor? then Some(s.now + step.duration) else None
  {}

  lemma {:induction false} DeadlineOfLastControl(cfg: Config, s0: State, steps: seq<Step>, i: nat)
    requires LastControlAt(steps, i)
    ensures Exec(cfg, s0, steps).pausedUntil ==
            if steps[i].PauseFor? then Some(Exec(cfg, s0, steps[..i]).now + steps[i].duration) else None
  {
    var n := |steps| - 1;
    if i < n {
      var before := steps[..n];
      assert before[..i] == steps[..i] && before[i] == steps[i];
      assert LastControlAt(before, i);
      DeadlineOfLastControl(cfg, s0, before, i);
      OnlyControlsPause(cfg, Exec(cfg, s0, before), steps[n]);
    } else {
      ControlSetsDeadline(cfg, Exec(cfg, s0, steps[..n]), steps[n]);
    }
  }

  lemma {:induction false} DeadlineComesFromControl(cfg: Config, s0: State, steps: seq<Step>)
    requires s0.pausedUntil.None? && Exec(cfg, s0, steps).pausedUntil.Some?
    ensures exists i: nat :: LastControlAt(steps, i)
  {
    var n := |steps| - 1;
    if IsControl(steps[n]) {
      assert LastControlAt(steps, n);
    } else {
      OnlyControlsPause(cfg, Exec(cfg, s0, steps[..n]), steps[n]);
      DeadlineComesFromControl(cfg, s0, steps[..n]);
      var i: nat :| LastControlAt(steps[..n], i);
      assert forall j :: i < j < n ==> steps[..n][j] == steps[j];
      assert LastControlAt(steps, i);
    }
  }

  /** In every run, blocking is inactive exactly when the last control step was a pause of d at p and it is
      not yet p + d, whatever else happened in between. */
  lemma {:induction false} InactiveIffLastControlPauses(cfg: Config, matcher: Matcher, t0: nat, steps: seq<Step>)
    ensures var s := Exec(cfg, Init(matcher, t0), steps);
            !AppStates.Active(s.pausedUntil, s.now) <==>
            exists i: nat :: PausedSince(cfg, Init(matcher, t0), steps, i)
  {
    var s0 := Init(matcher, t0);
    var s := Exec(cfg, s0, steps);
    forall i: nat | LastControlAt(steps, i)
      ensures PausedSince(cfg, s0, steps, i) <==> !AppStates.Active(s.pausedUntil, s.now)
    {
      DeadlineOfLastControl(cfg, s0, steps, i);
    }
    if s.pausedUntil.Some? { DeadlineComesFromControl(cfg, s0, steps); }
  }

  ghost predicate Paused(cfg: Config, s0: State, steps: seq<Step>) {
    exists i: nat :: PausedSince(cfg, s0, steps, i)
  }

  /** A request's pause check sends it past the blocklist exactly if the last control before it was a pause that had
      not run out, and to the blocklist otherwise. */
  lemma {:induction false} PauseCheckIsExact(cfg: Config, matcher: Matcher, t0: nat, steps: seq<Step>, id: nat)
    requires var s := Exec(cfg, Init(matcher, t0), steps); id < |s.requests| && s.requests[id].phase == PauseGate
    ensures Next(cfg, Exec(cfg, Init(matcher, t0), steps), Advance(Request(id))).requests[id].phase ==
            if Paused(cfg, Init(matcher, t0), steps) then Lookup else BlockGate
  {
    InactiveIffLastControlPauses(cfg, matcher, t0, steps);
  }

  lemma LetPastGoesOn(cfg: Config, s: State, step: Step, id: nat)
    requires id < |s.requests| && LetPast(s.requests[id].phase)
    ensures id < |Next(cfg, s, step).requests| && LetPast(Next(cfg, s, step).requests[id].phase)
  {
    if !Owns(step, Request(id)) {
      OthersKeepRequest(cfg, s, step, id);
    } else if step.Advance? {
      EffectGrows(cfg, s, id, s.requests[id]);
      LetPastAfter(cfg, s, s.requests[id]);
    }
  }

  lemma LetPastAfter(cfg: Config, s: State, r: Req)
    requires LetPast(r.phase)
    ensures LetPast(ReqAfter(cfg, s, r).phase)
  {}

  lemma {:induction false} LetPastIsFinal(cfg: Config, s: State, id: nat, steps: seq<Step>)
    requires id < |s.requests| && LetPast(s.requests[id].phase)
    ensures id < |Exec(cfg, s, steps).requests| && LetPast(Exec(cfg, s, steps).requests[id].phase)
  {
    if steps != [] {
      LetPastIsFinal(cfg, s, id, steps[..|steps| - 1]);
      LetPastGoesOn(cfg, Exec(cfg, s, steps[..|steps| - 1]), steps[|steps| - 1], id);
    }
  }

  /** A request whose own pause check falls into a pause is never sunk, whatever is listed, swapped or resumed later. */
  lemma {:induction false} PausedRequestIsNeverSunk(cfg: Config, matcher: Matcher, t0: nat, steps: seq<Step>, id: nat,
                                                   later: seq<Step>, source: u8)
    requires var s := Exec(cfg, Init(matcher, t0), steps); id < |s.requests| && s.requests[id].phase == PauseGate
    requires Paused(cfg, Init(matcher, t0), steps)
    ensures var s' := Exec(cfg, Next(cfg, Exec(cfg, Init(matcher, t0), steps), Advance(Request(id))), later);
            id < |s'.requests| && !SinkingAs(s'.requests[id].phase, source)
  {
    var s := Exec(cfg, Init(matcher, t0), steps);
    PauseCheckIsExact(cfg, matcher, t0, steps, id);
    EffectGrows(cfg, s, id, s.requests[id]);
    LetPastIsFinal(cfg, Next(cfg, s, Advance(Request(id))), id, later);
  }

  /** Step i of the run is request id's own pause check, and blocking is not paused. */
  ghost predicate CheckedActiveAt(cfg: Config, s0: State, steps: seq<Step>, i: nat, id: nat) {
    && i < |steps| && steps[i] == Advance(Request(id)) && !Paused(cfg, s0, steps[..i])
    && id < |Exec(cfg, s0, steps[..i]).requests| && Exec(cfg, s0, steps[..i]).requests[id].phase == PauseGate
  }

  /** Step j of the run is request id's own blocklist check, and the matcher in force names this list. */
  ghost predicate MatchedAt(cfg: Config, s0: State, steps: seq<Step>, j: nat, id: nat, name: string, source: u8) {
    && j < |steps| && steps[j] == Advance(Request(id))
    && var s := Exec(cfg, s0, steps[..j]);
       id < |s.requests| && s.requests[id].phase == BlockGate && s.requests[id].name == name &&
       s.matcher(name) == Some(source)
  }

  lemma CheckedEarlier(cfg: Config, s0: State, steps: seq<Step>, i: nat, id: nat)
    requires steps != [] && CheckedActiveAt(cfg, s0, steps[..|steps| - 1], i, id)
    ensures CheckedActiveAt(cfg, s0, steps, i, id)
  {
    assert steps[..|steps| - 1][..i] == steps[..i];
  }

  lemma MatchedEarlier(cfg: Config, s0: State, steps: seq<Step>, j: nat, id: nat, name: string, source: u8)
    requires steps != [] && MatchedAt(cfg, s0, steps[..|steps| - 1], j, id, name, source)
    ensures MatchedAt(cfg, s0, steps, j, id, name, source)
  {
    assert steps[..|steps| - 1][..j] == steps[..j];
  }

  lemma OnlyTheCheckLeadsToTheList(cfg: Config, s: State, step: Step, id: nat)
    requires id < |Next(cfg, s, step).requests| && Next(cfg, s, step).requests[id].phase == BlockGate
    requires !(id < |s.requests| && s.requests[id].phase == BlockGate)
    ensures step == Advance(Request(id)) && id < |s.requests| && s.requests[id].phase == PauseGate
  {
    if id < |s.requests| && !Owns(step, Request(id)) { OthersKeepRequest(cfg, s, step, id); }
  }

  lemma {:induction false} ListIsCheckedOnlyIfActive(cfg: Config, matcher: Matcher, t0: nat, steps: seq<Step>, id: nat)
    requires var s := Exec(cfg, Init(matcher, t0), steps); id < |s.requests| && s.requests[id].phase == BlockGate
    ensures exists i: nat :: CheckedActiveAt(cfg, Init(matcher, t0), steps, i, id)
  {
    var s0, n := Init(matcher, t0), |steps| - 1;
    var before := Exec(cfg, s0, steps[..n]);
    if id < |before.requests| && before.requests[id].phase == BlockGate {
      ListIsCheckedOnlyIfActive(cfg, matcher, t0, steps[..n], id);
      var i: nat :| CheckedActiveAt(cfg, s0, steps[..n], i, id);
      CheckedEarlier(cfg, s0, steps, i, id);
    } else {
      OnlyTheCheckLeadsToTheList(cfg, before, steps[n], id);
      PauseCheckIsExact(cfg, matcher, t0, steps[..n], id);
      assert CheckedActiveAt(cfg, s0, steps, n, id);
    }
  }

  lemma OnlyAMatchSinks(cfg: Config, s: State, step: Step, id: nat, source: u8)
    requires id < |Next(cfg, s, step).requests| && SinkingAs(Next(cfg, s, step).requests[id].phase, source)
    requires !(id < |s.requests| && SinkingAs(s.requests[id].phase, source))
    ensures step == Advance(Request(id)) && id < |s.requests| && s.requests[id].phase == BlockGate
    ensures s.matcher(s.requests[id].name) == Some(source)
    ensures Next(cfg, s, step).requests[id].name == s.requests[id].name
  {
    if id < |s.requests| {
      if !Owns(step, Request(id)) {
        OthersKeepRequest(cfg, s, step, id);
      } else if step.Advance? {
        SinkingComesFromMatch(cfg, s, s.requests[id], source);
      }
    }
  }

  lemma SinkingComesFromMatch(cfg: Config, s: State, r: Req, source: u8)
    requires SinkingAs(ReqAfter(cfg, s, r).phase, source) && !SinkingAs(r.phase, source)
    ensures r.phase == BlockGate && s.matcher(r.name) == Some(source)
  {}

  /** Its own pause check found blocking active, and later its own blocklist check found the name. */
  ghost predicate SunkInOrder(cfg: Config, s0: State, steps: seq<Step>, i: nat, j: nat, id: nat, name: string,
                              source: u8)
  {
    i < j && CheckedActiveAt(cfg, s0, steps, i, id) && MatchedAt(cfg, s0, steps, j, id, name, source)
  }

  /** In every run, a request that is sunk under a list's id (or on its way there) took its own pause check while
      blocking was not paused and later its own blocklist check while the matcher then in force named that list. */
  lemma {:induction false} SunkOnlyWhileActive(cfg: Config, matcher: Matcher, t0: nat, steps: seq<Step>, id: nat,
                                              source: u8)
    requires var s := Exec(cfg, Init(matcher, t0), steps); id < |s.requests| && SinkingAs(s.requests[id].phase, source)
    ensures exists i: nat, j: nat :: SunkInOrder(cfg, Init(matcher, t0), steps, i, j, id,
                                                 Exec(cfg, Init(matcher, t0), steps).requests[id].name, source)
  {
    var s0, n := Init(matcher, t0), |steps| - 1;
    var before := Exec(cfg, s0, steps[..n]);
    var name := Exec(cfg, s0, steps).requests[id].name;
    if id < |before.requests| && SinkingAs(before.requests[id].phase, source) {
      SunkOnlyWhileActive(cfg, matcher, t0, steps[..n], id, source);
      NextKeepsTasks(cfg, before, steps[n]);
      assert before.requests[id].CacheKey().name == name;
      var i: nat, j: nat :| SunkInOrder(cfg, s0, steps[..n], i, j, id, name, source);
      CheckedEarlier(cfg, s0, steps, i, id);
      MatchedEarlier(cfg, s0, steps, j, id, name, source);
      assert SunkInOrder(cfg, s0, steps, i, j, id, name, source);
    } else {
      OnlyAMatchSinks(cfg, before, steps[n], id, source);
      ListIsCheckedOnlyIfActive(cfg, matcher, t0, steps[..n], id);
      var i: nat :| CheckedActiveAt(cfg, s0, steps[..n], i, id);
      CheckedEarlier(cfg, s0, steps, i, id);
      assert MatchedAt(cfg, s0, steps, n, id, name, source);
      assert SunkInOrder(cfg, s0, steps, i, n, id, name, source);
    }
  }

  /** Without another pause, active blocking stays active for ever. */
  lemma {:induction false} ActiveStaysActive(cfg: Config, s: State, steps: seq<Step>)
    requires AppStates.Active(s.pausedUntil, s.now) && forall i :: 0 <= i < |steps| ==> !steps[i].PauseFor?
    ensures AppStates.Active(Exec(cfg, s, steps).pausedUntil, Exec(cfg, s, steps).now)
  {
    if steps != [] {
      var n := |steps| - 1;
      ActiveStaysActive(cfg, s, steps[..n]);
      NextGrows(cfg, Exec(cfg, s, steps[..n]), steps[n]);
      if !IsControl(steps[n]) { OnlyControlsPause(cfg, Exec(cfg, s, steps[..n]), steps[n]); }
    }
  }
}
