/** What a client gets and what the log says, outcome by outcome, written down without reference to how the machine
    forms either. */
module Responses {
  import opened Prelude
  import opened Dns
  import opened QueryLog
  import opened HandlerModel
  import ExactlyOnce
  import Gates

  // ----- responses -----------------------------------------------------------------------

  predicate Answers(response: Response, records: seq<Record>) {
    response.rcode == NoError && response.answers == records
  }

  /** One record of 60 seconds with this address, under the queried name (or under the root if it is no name). */
  predicate SinksTo(cfg: Config, r: Req, response: Response, data: RData) {
    && response.rcode == NoError && |response.answers| == 1
    && response.answers[0].ttl == 60 && response.answers[0].data == data
    && (cfg.parses(r.name) ==> response.answers[0].name == r.name)
    && (!cfg.parses(r.name) ==> response.answers[0].name == "")
  }

  predicate Fits(cfg: Config, r: Req, o: Outcome, response: Response) {
    match o
    case Ipv6Off => Answers(response, [])
    case FromLocal(records) => Answers(response, records)
    case FromCache(hit) => Answers(response, hit.records)
    case FromUpstream(records, _) => Answers(response, records)
    case NoAnswer(_) => response.rcode == ServFail && response.answers == []
    case Sunk(_) =>
      if r.qtype == A then SinksTo(cfg, r, response, V4("0.0.0.0"))
      else if r.qtype == AAAA then SinksTo(cfg, r, response, V6("::"))
      else response.rcode == NXDomain && response.answers == []
  }

  lemma MachineFits(cfg: Config, r: Req, o: Outcome)
    ensures Fits(cfg, r, o, ResponseFor(cfg, r, o))
  {}

  /** The one record configured for the name: its address, of the asked type, with the configured minimum to live. */
  predicate LocalAnswer(cfg: Config, r: Req, records: seq<Record>) {
    && |records| == 1 && r.name in cfg.localRecords && cfg.parses(r.name)
    && records[0].name == r.name && records[0].ttl == cfg.minTtl
    && match cfg.localRecords[r.name]
       case Ipv4(addr) => r.qtype == A && records[0].data == V4(addr)
       case Ipv6(addr) => r.qtype == AAAA && records[0].data == V6(addr)
  }

  /** A name and type are answered locally exactly when an address of that kind is configured for a name that parses. */
  lemma LocalMatchIff(cfg: Config, name: string, qtype: RecordType)
    ensures LocalMatch(cfg, name, qtype) <==>
            name in cfg.localRecords && cfg.parses(name) &&
            qtype == if cfg.localRecords[name].Ipv4? then A else AAAA
  {}

  lemma TableAnswers(cfg: Config, r: Req)
    requires LocalMatch(cfg, r.name, r.qtype)
    ensures LocalAnswer(cfg, r, LocalTable(cfg)[r.name])
  {}

  /** Each response is what its request's outcome calls for; a local one is the record configured. */
  ghost predicate SentFits(cfg: Config, requests: seq<Req>, x: Sent) {
    && x.id < |requests| && Decided(requests[x.id].phase).Some?
    && var r, o := requests[x.id], Decided(requests[x.id].phase).value;
       Fits(cfg, r, o, x.response) && (o.FromLocal? ==> LocalAnswer(cfg, r, x.response.answers))
  }

  /** In every run, every response ever sent. */
  lemma {:induction false} EveryResponseFits(cfg: Config, matcher: Matcher, t0: nat, steps: seq<Step>, j: nat)
    requires j < |Exec(cfg, Init(matcher, t0), steps).sent|
    ensures var s := Exec(cfg, Init(matcher, t0), steps); SentFits(cfg, s.requests, s.sent[j])
  {
    var s := Exec(cfg, Init(matcher, t0), steps);
    ExactlyOnce.RunKept(cfg, matcher, t0, steps);
    assert ExactlyOnce.ResponseRight(cfg, s.requests, s.sent[j]);
    var r := s.requests[s.sent[j].id];
    MachineFits(cfg, r, r.phase.outcome);
    LocalOutcome(cfg, matcher, t0, steps, s.sent[j].id);
  }

  lemma {:induction false} LocalOutcome(cfg: Config, matcher: Matcher, t0: nat, steps: seq<Step>, id: nat)
    requires id < |Exec(cfg, Init(matcher, t0), steps).requests|
    ensures var r := Exec(cfg, Init(matcher, t0), steps).requests[id];
            Decided(r.phase).Some? && Decided(r.phase).value.FromLocal? ==>
              LocalAnswer(cfg, r, Decided(r.phase).value.records)
  {
    Gates.EarlyGatesAreExact(cfg, matcher, t0, steps, id);
    var r := Exec(cfg, Init(matcher, t0), steps).requests[id];
    if LocalMatch(cfg, r.name, r.qtype) { TableAnswers(cfg, r); }
  }

  // ----- log entries ---------------------------------------------------------------------

  /** The whole milliseconds from start to now. */
  predicate Measures(latencyMs: nat, start: nat, now: nat) {
    start <= now && latencyMs * MILLISECOND <= now - start < (latencyMs + 1) * MILLISECOND
  }

  predicate Says(e: LogEntry, action: Action, source: Option<u8>, upstream: Option<string>, ttl: Option<nat>) {
    e.action == action && e.source == source && e.upstream == upstream && e.ttlRemaining == ttl
  }

  predicate LogFits(r: Req, o: Outcome, e: LogEntry, now: nat) {
    && e.client == r.client && e.domain == r.name && e.qtype == r.qtype && Measures(e.latencyMs, r.start, now)
    && match o
       case Ipv6Off => Says(e, Blocked, None, Some("ipv6-disabled"), None)
       case FromLocal(_) => Says(e, Action.Local, None, Some("local-config"), None)
       case Sunk(source) => Says(e, Blocked, Some(source), None, None)
       case FromCache(hit) => Says(e, Cached, None, None, Some(hit.ttl))
       case FromUpstream(_, upstream) => Says(e, Forwarded, None, Some(upstream), None)
       case NoAnswer(error) => Says(e, Forwarded, None, Some("error: " + error), None)
  }

  lemma MachineLogs(r: Req, o: Outcome, now: nat)
    requires r.start <= now
    ensures LogFits(r, o, LogFor(r, o, now), now)
  {
    var d := now - r.start;
    assert (d / MILLISECOND) * MILLISECOND <= d < (d / MILLISECOND + 1) * MILLISECOND;
  }

  /** Step i of the run is request id's own reading of the query, at instant start. */
  ghost predicate ReadQueryAt(cfg: Config, s0: State, steps: seq<Step>, i: nat, id: nat, start: nat) {
    && i < |steps| && steps[i] == Advance(Request(id))
    && var s := Exec(cfg, s0, steps[..i]);
       id < |s.requests| && s.requests[id].phase == CountDomain && s.now == start
  }

  predicate HasQuery(p: Phase) { !p.CountClient? && !p.CountDomain? }

  lemma StartIsSetByReading(cfg: Config, s: State, step: Step, id: nat)
    requires id < |Next(cfg, s, step).requests| && HasQuery(Next(cfg, s, step).requests[id].phase)
    ensures id < |s.requests|
    ensures if HasQuery(s.requests[id].phase) then Next(cfg, s, step).requests[id].start == s.requests[id].start
            else step == Advance(Request(id)) && s.requests[id].phase == CountDomain &&
                 Next(cfg, s, step).requests[id].start == s.now
  {
    if id < |s.requests| {
      if !Owns(step, Request(id)) {
        OthersKeepRequest(cfg, s, step, id);
      } else {
        EffectGrows(cfg, s, id, s.requests[id]);
      }
    }
  }

  /** The instant that latencies count from is that of the request's own reading of the query. */
  lemma {:induction false} StartWasRead(cfg: Config, matcher: Matcher, t0: nat, steps: seq<Step>, id: nat)
    requires var s := Exec(cfg, Init(matcher, t0), steps); id < |s.requests| && HasQuery(s.requests[id].phase)
    ensures exists i: nat :: ReadQueryAt(cfg, Init(matcher, t0), steps, i, id,
                                         Exec(cfg, Init(matcher, t0), steps).requests[id].start)
  {
    var s0, n := Init(matcher, t0), |steps| - 1;
    var before := Exec(cfg, s0, steps[..n]);
    var start := Exec(cfg, s0, steps).requests[id].start;
    StartIsSetByReading(cfg, before, steps[n], id);
    if HasQuery(before.requests[id].phase) {
      StartWasRead(cfg, matcher, t0, steps[..n], id);
      var i: nat :| ReadQueryAt(cfg, s0, steps[..n], i, id, start);
      assert steps[..n][..i] == steps[..i];
      assert ReadQueryAt(cfg, s0, steps, i, id, start);
    } else {
      assert ReadQueryAt(cfg, s0, steps, n, id, start);
    }
  }

  ghost predicate SubmittedFits(latest: nat, requests: seq<Req>, x: Submitted) {
    && x.id < |requests| && requests[x.id].phase.Done?
    && exists now: nat :: now <= latest && LogFits(requests[x.id], requests[x.id].phase.outcome, x.entry, now)
  }

  lemma RightEntryFits(latest: nat, requests: seq<Req>, x: Submitted)
    requires ExactlyOnce.EntryRight(latest, requests, x)
    ensures SubmittedFits(latest, requests, x)
  {
    var r := requests[x.id];
    var now: nat :| r.start <= now <= latest && x.entry == LogFor(r, r.phase.outcome, now);
    MachineLogs(r, r.phase.outcome, now);
  }

  /** In every run, every log entry ever submitted says what became of its request and how long it took, from its
      reading of the query to some instant since. */
  lemma {:induction false} EveryLogEntryFits(cfg: Config, matcher: Matcher, t0: nat, steps: seq<Step>, j: nat)
    requires j < |Exec(cfg, Init(matcher, t0), steps).submitted|
    ensures var s := Exec(cfg, Init(matcher, t0), steps);
            && SubmittedFits(s.now, s.requests, s.submitted[j])
            && exists i: nat :: ReadQueryAt(cfg, Init(matcher, t0), steps, i, s.submitted[j].id,
                                            s.requests[s.submitted[j].id].start)
  {
    var s := Exec(cfg, Init(matcher, t0), steps);
    ExactlyOnce.RunKept(cfg, matcher, t0, steps);
    RightEntryFits(s.now, s.requests, s.submitted[j]);
    StartWasRead(cfg, matcher, t0, steps, s.submitted[j].id);
  }
}
