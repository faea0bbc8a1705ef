/** Across the components: what a configured or downloaded name means for a query. */
module EndToEnd {
  import opened Prelude
  import opened Permutations
  import opened Dns
  import opened DomainMatcher
  import opened BlocklistManager
  import opened ListedNames
  import opened HandlerModel
  import opened Gates
  import opened Resolvers
  import CacheSafety
  import Ledger
  import Responses

  /** A built matcher as the handler uses it. */
  function MatcherOf(domains: map<string, u8>, allowlist: set<string>): Matcher {
    d => Verdict(domains, allowlist, d)
  }

  /** From downloaded line to answered query. A request that is checked while a refreshed matcher is in force is
      sunk, under the id of a list naming the longest listed suffix, and stays so whatever happens next, exactly
      when its name is not allowlisted and the parse of some downloaded line is a label suffix of it;
      otherwise it goes on to the cache. The completion order of the downloads plays no part. */
  lemma ListedNamesAreSunk(cfg: Config, downloads: seq<Download>, completion: seq<nat>, allowlist: set<string>,
                           s: State, id: nat, steps: seq<Step>)
    requires IsPermutation(completion, |downloads|)
    requires id < |s.requests| && s.requests[id].phase == BlockGate
    requires s.matcher == MatcherOf(Merged(downloads, completion), allowlist)
    ensures var name := s.requests[id].name;
            var listed := name !in allowlist && exists t :: ListedSuffix(downloads, name, t);
            var next := Next(cfg, s, Advance(Request(id)));
            && (!listed ==> next.requests[id].phase == Lookup)
            && (listed ==> exists source, t ::
                  LongestListedSuffix(downloads, name, t) && ListedBy(downloads, t, source) &&
                  id < |Exec(cfg, next, steps).requests| &&
                  SinkingAs(Exec(cfg, next, steps).requests[id].phase, source))
  {
    var name := s.requests[id].name;
    RefreshVerdict(downloads, completion, allowlist, name);
    var v := Verdict(Merged(downloads, completion), allowlist, name);
    assert s.matcher(name) == v;
    if v.Some? {
      MatchedRequestIsSunk(cfg, s, id, steps);
      var t :| LongestListedSuffix(downloads, name, t) && ListedBy(downloads, t, v.value);
    }
  }

  // ----- from upstream to client -----------------------------------------------------------------

  /** For each recorded answer, what the upstreams said to that query and the order the policy considered them in;
      the answer is what following that order makes of those replies. */
  ghost predicate AnsweredBy(upstreams: seq<Upstream>, calls: seq<Call>, answers: seq<Answer>) {
    && |calls| == |answers|
    && forall j :: 0 <= j < |calls| ==>
                     WellFormed(calls[j], |upstreams|) &&
                     Decides(upstreams, calls[j].replies, calls[j].order, answers[j].resolution)
  }

  /** The records are what is visible of upstream i's own reply in call j, which was for this key, reported
      under that upstream's own url; and every upstream considered before it had failed. */
  ghost predicate OwnReply(cfg: Config, upstreams: seq<Upstream>, calls: seq<Call>, answers: seq<Answer>,
                           key: Key, rs: seq<Record>, url: string, j: int, i: int)
  {
    && 0 <= j < |calls| == |answers| && 0 <= i < |upstreams| && WellFormed(calls[j], |upstreams|)
    && answers[j].key == key
    && Answers(calls[j].replies[i]) && rs == Visible(cfg, AnswerOf(calls[j].replies[i].lookup).value)
    && url == upstreams[i].url
    && exists p: nat :: FirstAnswer(calls[j].replies, calls[j].order) == Some(p) && calls[j].order[p] == i
  }

  lemma AnswerIsOwnReply(cfg: Config, upstreams: seq<Upstream>, calls: seq<Call>, answers: seq<Answer>,
                         key: Key, rs: seq<Record>, j: int) returns (i: int)
    requires AnsweredBy(upstreams, calls, answers) && 0 <= j < |answers|
    requires CacheSafety.Gives(cfg, answers[j], key, rs)
    ensures OwnReply(cfg, upstreams, calls, answers, key, rs, answers[j].resolution.upstream, j, i)
  {
    var p := FirstAnswer(calls[j].replies, calls[j].order);
    assert Decides(upstreams, calls[j].replies, calls[j].order, answers[j].resolution);
    i := calls[j].order[p.value];
  }

  /** What a forwarded request gets is one upstream's own reply to its own resolver call. */
  ghost predicate ForwardedFrom(cfg: Config, upstreams: seq<Upstream>, calls: seq<Call>, s: State, id: nat,
                                rs: seq<Record>, url: string)
    requires id < |s.requests|
  {
    exists j, i ::
      OwnReply(cfg, upstreams, calls, s.answers, Key(s.requests[id].name, s.requests[id].qtype), rs, url, j, i) &&
      s.answers[j].task == Request(id)
  }

  /** What a cache hit serves is one upstream's own reply to a call for the same name and type, within its age. */
  ghost predicate CachedFrom(cfg: Config, upstreams: seq<Upstream>, calls: seq<Call>, s: State, key: Key, h: Hit) {
    exists j, i, t: nat ::
      0 <= j < |s.answers| && s.answers[j].resolution.Resolved? &&
      OwnReply(cfg, upstreams, calls, s.answers, key, h.records, s.answers[j].resolution.upstream, j, i) &&
      s.answers[j].at <= t <= h.at && CacheSafety.WithinAge(cfg, h, t)
  }

  /** Given what the upstreams said to each call: in every run, behind any policy, a forwarded answer is what is
      visible of the first answering upstream's own reply to that request's own call, under its own url, and a
      cached one is such a reply to an earlier call for the same key, still within its age. */
  lemma {:induction false} ServedRecordsAreUpstreamsOwn(cfg: Config, matcher: Matcher, t0: nat, steps: seq<Step>,
                                                        id: nat, upstreams: seq<Upstream>, calls: seq<Call>)
    requires AnsweredBy(upstreams, calls, Exec(cfg, Init(matcher, t0), steps).answers)
    ensures var s := Exec(cfg, Init(matcher, t0), steps);
            id < |s.requests| && Decided(s.requests[id].phase).Some? ==>
              var o := Decided(s.requests[id].phase).value;
              && (o.FromUpstream? ==> ForwardedFrom(cfg, upstreams, calls, s, id, o.records, o.upstream))
              && (o.FromCache? ==> CachedFrom(cfg, upstreams, calls, s, s.requests[id].CacheKey(), o.hit))
  {
    var s := Exec(cfg, Init(matcher, t0), steps);
    CacheSafety.CachedAnswersAreGenuineAndInTime(cfg, matcher, t0, steps, id);
    if id < |s.requests| && Decided(s.requests[id].phase).Some? {
      var o := Decided(s.requests[id].phase).value;
      if o.FromUpstream? {
        GenuineIsOwn(cfg, s, id, o.records, o.upstream, upstreams, calls);
      } else if o.FromCache? {
        ServedIsOwn(cfg, s, s.requests[id].CacheKey(), o.hit, upstreams, calls);
      }
    }
  }

  lemma GenuineIsOwn(cfg: Config, s: State, id: nat, rs: seq<Record>, url: string,
                     upstreams: seq<Upstream>, calls: seq<Call>)
    requires id < |s.requests| && AnsweredBy(upstreams, calls, s.answers)
    requires CacheSafety.Genuine(cfg, s, Request(id), s.requests[id].CacheKey(), rs, url)
    ensures ForwardedFrom(cfg, upstreams, calls, s, id, rs, url)
  {
    var key := s.requests[id].CacheKey();
    var j :| 0 <= j < |s.answers| && s.answers[j].task == Request(id) &&
             CacheSafety.Gives(cfg, s.answers[j], key, rs) &&
             s.answers[j].resolution.upstream == url;
    var i := AnswerIsOwnReply(cfg, upstreams, calls, s.answers, key, rs, j);
  }

  lemma ServedIsOwn(cfg: Config, s: State, key: Key, h: Hit, upstreams: seq<Upstream>, calls: seq<Call>)
    requires CacheSafety.ServedInTime(cfg, s, key, h) && AnsweredBy(upstreams, calls, s.answers)
    ensures CachedFrom(cfg, upstreams, calls, s, key, h)
  {
    var j, t: nat :| 0 <= j < |s.answers| && CacheSafety.Gives(cfg, s.answers[j], key, h.records) &&
                     s.answers[j].at <= t <= h.at <= s.now && CacheSafety.WithinAge(cfg, h, t);
    var i := AnswerIsOwnReply(cfg, upstreams, calls, s.answers, key, h.records, j);
  }

  /** What an error answers: a resolver call of the request's own in which no upstream answered. */
  ghost predicate AllFailed(upstreams: seq<Upstream>, calls: seq<Call>, s: State, id: nat) {
    exists j :: 0 <= j < |calls| == |s.answers| && s.answers[j].task == Request(id) &&
                |calls[j].replies| == |upstreams| &&
                forall i :: 0 <= i < |upstreams| ==> !Resolvers.Answers(calls[j].replies[i])
  }

  lemma FailedIsAllFailed(upstreams: seq<Upstream>, calls: seq<Call>, s: State, id: nat, e: string)
    requires AnsweredBy(upstreams, calls, s.answers) && Failed(e) in Ledger.RepliesTo(s.answers, Request(id))
    ensures AllFailed(upstreams, calls, s, id)
  {
    var j := Ledger.ReplyWasAnswer(s.answers, Request(id), Failed(e));
    assert Decides(upstreams, calls[j].replies, calls[j].order, s.answers[j].resolution);
    forall i: nat | i < |upstreams| ensures !Resolvers.Answers(calls[j].replies[i]) {
      PermutationHits(calls[j].order, |upstreams|, i);
    }
  }

  /** The response is made of what the upstreams said: forwarded and cached records are one upstream's own, as sent, and
      an error means that none of them answered. */
  ghost predicate SentFromUpstreams(cfg: Config, upstreams: seq<Upstream>, calls: seq<Call>, s: State, x: Sent) {
    && x.id < |s.requests| && Decided(s.requests[x.id].phase).Some?
    && var r, o := s.requests[x.id], Decided(s.requests[x.id].phase).value;
       match o
       case FromUpstream(_, url) =>
         x.response.rcode == NoError && ForwardedFrom(cfg, upstreams, calls, s, x.id, x.response.answers, url)
       case FromCache(hit) =>
         x.response.rcode == NoError && x.response.answers == hit.records &&
         CachedFrom(cfg, upstreams, calls, s, Key(r.name, r.qtype), hit)
       case NoAnswer(_) =>
         x.response.rcode == ServFail && x.response.answers == [] && AllFailed(upstreams, calls, s, x.id)
       case _ => true
  }

  /** In every run and behind any policy, given what the upstreams said to each call, for every response ever sent. */
  lemma {:induction false} SentRecordsAreUpstreamsOwn(cfg: Config, matcher: Matcher, t0: nat, steps: seq<Step>,
                                                      upstreams: seq<Upstream>, calls: seq<Call>, j: nat)
    requires var s := Exec(cfg, Init(matcher, t0), steps); j < |s.sent| && AnsweredBy(upstreams, calls, s.answers)
    ensures var s := Exec(cfg, Init(matcher, t0), steps);
            SentFromUpstreams(cfg, upstreams, calls, s, s.sent[j])
  {
    var s := Exec(cfg, Init(matcher, t0), steps);
    var id := s.sent[j].id;
    Responses.EveryResponseFits(cfg, matcher, t0, steps, j);
    ServedRecordsAreUpstreamsOwn(cfg, matcher, t0, steps, id, upstreams, calls);
    Ledger.OutcomeIsReply(cfg, matcher, t0, steps, id);
    var o := Decided(s.requests[id].phase).value;
    if o.NoAnswer? {
      assert Failed(o.error) in [Failed(o.error)];
      FailedIsAllFailed(upstreams, calls, s, id, o.error);
    }
  }

  // ----- what a configured name means for a query ----------------------------------------------------

  /** Queries come fully qualified, are folded to lower case and lose their final dot; allowlist lines are compared
      as written. Adding a line changes the verdict of some query exactly when the line is new, names something
      blocked and has only labels that a query's labels are folded to: so in lower case and with no final dot. */
  lemma AllowlistLineMattersIff(sp: Spelling, domains: map<string, u8>, allowlist: set<string>, entry: string)
    requires IsSpelling(sp)
    ensures (exists raw :: Rendered(sp, raw) && Verdict(domains, allowlist + {entry}, QueryName(raw)) !=
                                                Verdict(domains, allowlist, QueryName(raw)))
            <==> entry !in allowlist && Scan(domains, entry).Some? && Spellable(sp, entry)
  {
    ConfiguredNameReachable(sp, entry);
    forall raw | Verdict(domains, allowlist + {entry}, QueryName(raw)) != Verdict(domains, allowlist, QueryName(raw))
      ensures QueryName(raw) == entry
    {}
    if entry !in allowlist && Scan(domains, entry).Some? && Spellable(sp, entry) {
      var raw :| Rendered(sp, raw) && QueryName(raw) == entry;
      assert Verdict(domains, allowlist + {entry}, QueryName(raw)) != Verdict(domains, allowlist, QueryName(raw));
    }
  }

  /** A configured local record is served to some query exactly when its name parses and has only labels that a
      query's labels are folded to, and it is not an IPv6 record while IPv6 is disabled. */
  lemma LocalRecordIsServableIff(cfg: Config, sp: Spelling, name: string)
    requires IsSpelling(sp) && name in cfg.localRecords
    ensures (exists raw, qtype :: Rendered(sp, raw) && QueryName(raw) == name &&
                                  LocalMatch(cfg, QueryName(raw), qtype) && !(cfg.disableIpv6 && qtype == AAAA))
            <==> cfg.parses(name) && Spellable(sp, name) && !(cfg.disableIpv6 && cfg.localRecords[name].Ipv6?)
  {
    ConfiguredNameReachable(sp, name);
    if cfg.parses(name) && Spellable(sp, name) && !(cfg.disableIpv6 && cfg.localRecords[name].Ipv6?) {
      var raw :| Rendered(sp, raw) && QueryName(raw) == name;
      var qtype := LocalRecord(cfg, name).RecordType();
      assert LocalMatch(cfg, QueryName(raw), qtype);
    }
  }

  // ----- names written with their final dot --------------------------------------------------------

  /** Every request's name comes from the name that some query was written with. */
  ghost predicate ArrivalsRendered(sp: Spelling, steps: seq<Step>) {
    forall step :: step in steps && step.Arrive? ==> Rendered(sp, step.rawName)
  }

  lemma {:induction false} RequestNamesAreSpellable(cfg: Config, sp: Spelling, matcher: Matcher, t0: nat,
                                                   steps: seq<Step>, id: nat)
    requires IsSpelling(sp) && ArrivalsRendered(sp, steps)
    requires id < |Exec(cfg, Init(matcher, t0), steps).requests|
    ensures Spellable(sp, Exec(cfg, Init(matcher, t0), steps).requests[id].name)
  {
    var n := |steps| - 1;
    var before := Exec(cfg, Init(matcher, t0), steps[..n]);
    assert steps[n] in steps;
    if id < |before.requests| {
      RequestNamesAreSpellable(cfg, sp, matcher, t0, steps[..n], id);
      NextKeepsTasks(cfg, before, steps[n]);
      assert Next(cfg, before, steps[n]).requests[id].CacheKey() == before.requests[id].CacheKey();
    } else {
      NewRequestsArrive(cfg, before, steps[n], id);
      RenderedNamesAreSpellable(sp, steps[n].rawName);
    }
  }

  lemma NewRequestsArrive(cfg: Config, s: State, step: Step, id: nat)
    requires |s.requests| <= id < |Next(cfg, s, step).requests|
    ensures step.Arrive? && Next(cfg, s, step).requests[id].name == QueryName(step.rawName)
  {}

  /** In every run, no request is answered from a local record whose name no query can have, for instance because it
      has an upper-case letter or its final dot. */
  lemma {:induction false} UnmetRecordIsNeverServed(cfg: Config, sp: Spelling, matcher: Matcher, t0: nat,
                                                   steps: seq<Step>, id: nat, name: string)
    requires IsSpelling(sp) && ArrivalsRendered(sp, steps)
    requires name in cfg.localRecords && !Spellable(sp, name)
    requires id < |Exec(cfg, Init(matcher, t0), steps).requests|
    ensures Decided(Exec(cfg, Init(matcher, t0), steps).requests[id].phase) != Some(FromLocal([LocalRecord(cfg, name)]))
  {
    RequestNamesAreSpellable(cfg, sp, matcher, t0, steps, id);
    EarlyGatesAreExact(cfg, matcher, t0, steps, id);
    var r := Exec(cfg, Init(matcher, t0), steps).requests[id];
    if Decided(r.phase).Some? && Decided(r.phase).value.FromLocal? {
      assert Decided(r.phase).value.records[0].name == r.name;
    }
  }

  /** With its final dot no name is one that queries can have: such a local record is never served (above), and
      neither an allowlist line nor a blocklist key with one changes any verdict. */
  lemma FinalDotDisarmsEntry(sp: Spelling, domains: map<string, u8>, allowlist: set<string>, base: string,
                             id: u8, raw: string)
    requires IsSpelling(sp) && TakesDot(base)
    ensures !Spellable(sp, base + ".")
    ensures Rendered(sp, raw) ==>
              var d, verdict := QueryName(raw), Verdict(domains, allowlist, QueryName(raw));
              && Verdict(domains, allowlist + {base + "."}, d) == verdict
              && Verdict(domains[base + "." := id], allowlist, d) == verdict
  {
    FinalDotLeavesEmptyLabel(base);
    EmptyIsNoLabel(sp);
    if Rendered(sp, raw) {
      FinalDotIsNeverMet(sp, base, raw);
      FinalDotKeyIsNeverMet(sp, base, raw);
      OtherKeysAreIdle(domains, base + ".", id, QueryName(raw));
    }
  }
}
