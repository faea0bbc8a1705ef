/** The query log: bounded lossy channels, one per sink, and the ring buffer behind the API. */
module QueryLog {
  import opened Prelude
  import opened Dns

  datatype Action = Allowed | Blocked | Cached | Forwarded | Local

  datatype LogEntry = LogEntry(
    client: string, domain: string, qtype: RecordType, action: Action, source: Option<u8>,
    upstream: Option<string>, latencyMs: nat, ttlRemaining: Option<nat>)

  const CAPACITY: nat := 1000

  // ----- one channel ----------------------------------------------------------------------

  /** What a sink's channel goes through, in the order the operations take effect. */
  datatype ChannelOp<E> = Offer(entry: E) | Receive

  datatype Channel<E> = Channel(queue: seq<E>, delivered: seq<E>)

  function ChannelEffect<E>(c: Channel<E>, op: ChannelOp<E>): Channel<E> {
    match op
    case Offer(e) => if |c.queue| < CAPACITY then c.(queue := c.queue + [e]) else c
    case Receive => if c.queue == [] then c else Channel(c.queue[1..], c.delivered + [c.queue[0]])
  }

  function After<E>(ops: seq<ChannelOp<E>>): Channel<E> {
    if ops == [] then Channel([], []) else ChannelEffect(After(ops[..|ops| - 1]), ops[|ops| - 1])
  }

  function Offered<E>(ops: seq<ChannelOp<E>>): seq<E> {
    if ops == [] then []
    else
      var last := ops[|ops| - 1];
      Offered(ops[..|ops| - 1]) + (if last.Offer? then [last.entry] else [])
  }

  /** The entries that were offered while the queue was full. */
  function Dropped<E>(ops: seq<ChannelOp<E>>): seq<E> {
    if ops == [] then []
    else
      var last := ops[|ops| - 1];
      var before := ops[..|ops| - 1];
      Dropped(before) + (if last.Offer? && |After(before).queue| >= CAPACITY then [last.entry] else [])
  }

  predicate Subsequence<E(==)>(a: seq<E>, b: seq<E>) {
    a == [] ||
    (b != [] &&
     ((a[|a| - 1] == b[|b| - 1] && Subsequence(a[..|a| - 1], b[..|b| - 1])) || Subsequence(a, b[..|b| - 1])))
  }

  lemma SubsequenceAppend<E>(a: seq<E>, b: seq<E>, x: E)
    requires Subsequence(a, b)
    ensures Subsequence(a, b + [x]) && Subsequence(a + [x], b + [x])
  {
    assert (b + [x])[..|b|] == b && (a + [x])[..|a|] == a;
  }

  ghost predicate Conserved<E>(c: Channel<E>, offered: seq<E>, dropped: seq<E>) {
    && |c.queue| <= CAPACITY
    && Subsequence(c.delivered + c.queue, offered)
    && multiset(offered) == multiset(c.delivered + c.queue) + multiset(dropped)
    && (c.delivered + c.queue == offered <==> dropped == [])
    && |offered| == |c.delivered| + |c.queue| + |dropped|
  }

  lemma SameLast<E>(a: seq<E>, b: seq<E>, e: E)
    ensures a + [e] == b + [e] <==> a == b
  {
    if a + [e] == b + [e] { assert (a + [e])[..|a|] == a && (b + [e])[..|b|] == b; }
  }

  lemma AcceptConserves<E>(c: Channel<E>, offered: seq<E>, dropped: seq<E>, e: E)
    requires Conserved(c, offered, dropped) && |c.queue| < CAPACITY
    ensures Conserved(c.(queue := c.queue + [e]), offered + [e], dropped)
  {
    var held := c.delivered + c.queue;
    assert c.delivered + (c.queue + [e]) == held + [e];
    SubsequenceAppend(held, offered, e);
    SameLast(held, offered, e);
    AppendShares(held, offered, dropped, e);
  }

  lemma AppendShares<E>(held: seq<E>, offered: seq<E>, dropped: seq<E>, e: E)
    requires multiset(offered) == multiset(held) + multiset(dropped)
    ensures multiset(offered + [e]) == multiset(held + [e]) + multiset(dropped)
    ensures multiset(offered + [e]) == multiset(held) + multiset(dropped + [e])
  {}

  lemma DropConserves<E>(c: Channel<E>, offered: seq<E>, dropped: seq<E>, e: E)
    requires Conserved(c, offered, dropped) && |c.queue| == CAPACITY
    ensures Conserved(c, offered + [e], dropped + [e])
  {
    SubsequenceAppend(c.delivered + c.queue, offered, e);
    AppendShares(c.delivered + c.queue, offered, dropped, e);
    assert |c.delivered + c.queue| < |offered + [e]|;
  }

  lemma ReceiveConserves<E>(c: Channel<E>, offered: seq<E>, dropped: seq<E>)
    requires Conserved(c, offered, dropped)
    ensures Conserved(ChannelEffect(c, Receive), offered, dropped)
  {
    if c.queue != [] {
      assert (c.delivered + [c.queue[0]]) + c.queue[1..] == c.delivered + c.queue;
    }
  }

  /** First in, first out, and lossy only when full: what was delivered followed by what is queued is a
      subsequence of what was offered, offered = delivered + queued + dropped, and nothing is missing
      or out of place exactly when nothing was dropped. */
  lemma {:induction false} ChannelConserves<E>(ops: seq<ChannelOp<E>>)
    ensures Conserved(After(ops), Offered(ops), Dropped(ops))
  {
    if ops != [] {
      var before := ops[..|ops| - 1];
      var c := After(before);
      ChannelConserves(before);
      match ops[|ops| - 1]
      case Offer(e) =>
        if |c.queue| < CAPACITY {
          AcceptConserves(c, Offered(before), Dropped(before), e);
        } else {
          DropConserves(c, Offered(before), Dropped(before), e);
        }
      case Receive =>
        ReceiveConserves(c, Offered(before), Dropped(before));
        assert Offered(ops) == Offered(before) && Dropped(ops) == Dropped(before);
    }
  }

  /** The i-th operation offers an entry to a full queue. */
  predicate HitsFullQueue<E>(ops: seq<ChannelOp<E>>, i: nat)
    requires i < |ops|
  {
    ops[i].Offer? && |After(ops[..i]).queue| >= 1000
  }

  lemma EarlierHitsFullQueue<E>(ops: seq<ChannelOp<E>>, i: nat)
    requires i + 1 < |ops|
    ensures HitsFullQueue(ops, i) <==> HitsFullQueue(ops[..|ops| - 1], i)
  {
    assert ops[..|ops| - 1][..i] == ops[..i];
  }

  ghost predicate EverHitsFullQueue<E>(ops: seq<ChannelOp<E>>) {
    exists i: nat :: i < |ops| && HitsFullQueue(ops, i)
  }

  lemma FullQueueNowOrEarlier<E>(ops: seq<ChannelOp<E>>)
    requires ops != []
    ensures EverHitsFullQueue(ops) <==> EverHitsFullQueue(ops[..|ops| - 1]) || HitsFullQueue(ops, |ops| - 1)
  {
    var before := ops[..|ops| - 1];
    forall i: nat | i < |before| ensures HitsFullQueue(ops, i) <==> HitsFullQueue(before, i) {
      EarlierHitsFullQueue(ops, i);
    }
    if i: nat :| i < |ops| && HitsFullQueue(ops, i) {
      assert i < |before| ==> HitsFullQueue(before, i);
    }
    if i: nat :| i < |before| && HitsFullQueue(before, i) {
      assert HitsFullQueue(ops, i);
    }
  }

  /** Nothing is dropped exactly when no entry is ever offered to a full queue. */
  lemma {:induction false} LosslessIffNeverFull<E>(ops: seq<ChannelOp<E>>)
    ensures Dropped(ops) != [] <==> EverHitsFullQueue(ops)
  {
    if ops != [] {
      LosslessIffNeverFull(ops[..|ops| - 1]);
      FullQueueNowOrEarlier(ops);
    }
  }

  // ----- many channels ----------------------------------------------------------------------

  /** An operation on one of n channels, anywhere in an interleaving of loggers and consumers. */
  datatype SinkOp<E> = SinkOp(sink: nat, op: ChannelOp<E>)

  function SinkEffect<E>(channels: seq<Channel<E>>, s: SinkOp<E>): seq<Channel<E>> {
    if s.sink < |channels| then channels[s.sink := ChannelEffect(channels[s.sink], s.op)] else channels
  }

  function AllAfter<E>(n: nat, ops: seq<SinkOp<E>>): seq<Channel<E>> {
    if ops == [] then seq(n, i => Channel([], [])) else SinkEffect(AllAfter(n, ops[..|ops| - 1]), ops[|ops| - 1])
  }

  /** The part of an interleaving that one sink sees. */
  function OpsOf<E>(ops: seq<SinkOp<E>>, sink: nat): seq<ChannelOp<E>> {
    if ops == [] then []
    else
      var last := ops[|ops| - 1];
      OpsOf(ops[..|ops| - 1], sink) + (if last.sink == sink then [last.op] else [])
  }

  /** A sink behaves as if the other sinks did not exist: full or slow neighbours never cost it an entry. */
  lemma {:induction false} SinksAreIndependent<E>(n: nat, ops: seq<SinkOp<E>>, i: nat)
    requires i < n
    ensures |AllAfter(n, ops)| == n && AllAfter(n, ops)[i] == After(OpsOf(ops, i))
  {
    if ops != [] {
      var m := |ops| - 1;
      SinksAreIndependent(n, ops[..m], i);
      var before := OpsOf(ops[..m], i);
      assert (before + [ops[m].op])[..|before|] == before;
      assert OpsOf(ops, i) == if ops[m].sink == i then before + [ops[m].op] else before;
    }
  }

  /** One offer of the entry to each of n sinks, in sink order. */
  function OffersTo<E>(n: nat, entry: E): seq<SinkOp<E>> {
    if n == 0 then [] else OffersTo(n - 1, entry) + [SinkOp(n - 1, Offer(entry))]
  }

  lemma {:induction false} OpsOfConcat<E>(a: seq<SinkOp<E>>, b: seq<SinkOp<E>>, sink: nat)
    ensures OpsOf(a + b, sink) == OpsOf(a, sink) + OpsOf(b, sink)
  {
    if b == [] {
      assert a + b == a;
    } else {
      assert (a + b)[..|a + b| - 1] == a + b[..|b| - 1];
      OpsOfConcat(a, b[..|b| - 1], sink);
    }
  }

  lemma {:induction false} OffersToEach<E>(n: nat, entry: E, sink: nat)
    ensures OpsOf(OffersTo(n, entry), sink) == if sink < n then [Offer(entry)] else []
  {
    if n > 0 {
      OffersToEach(n - 1, entry, sink);
      var before := OffersTo(n - 1, entry);
      assert (before + [SinkOp(n - 1, Offer(entry))])[..|before|] == before;
    }
  }

  lemma OfferedAppend<E>(ops: seq<ChannelOp<E>>, entry: E)
    ensures Offered(ops + [Offer(entry)]) == Offered(ops) + [entry]
  {
    assert (ops + [Offer(entry)])[..|ops|] == ops;
  }

  /** What one call of `log` adds to any history: exactly one offer at each sink, whatever was going on before. */
  lemma {:induction false} LogReachesEverySinkOnce<E>(ops: seq<SinkOp<E>>, n: nat, entry: E, sink: nat)
    requires sink < n
    ensures Offered(OpsOf(ops + OffersTo(n, entry), sink)) == Offered(OpsOf(ops, sink)) + [entry]
  {
    OpsOfConcat(ops, OffersTo(n, entry), sink);
    OffersToEach(n, entry, sink);
    OfferedAppend(OpsOf(ops, sink), entry);
  }

  // ----- many callers of `log` at once -------------------------------------------------------

  /** A call of `log` in progress: its entry and the next sink it will offer it to. */
  datatype LogCall<E> = LogCall(entry: E, next: nat)

  /** A caller begins, some caller makes its next offer, or a consumer receives. */
  datatype PathStep<E> = Begin(entry: E) | OfferNext(call: nat) | Consume(sink: nat)

  datatype LogState<E> = LogState(calls: seq<LogCall<E>>, ops: seq<SinkOp<E>>)

  function LogNext<E>(n: nat, s: LogState<E>, step: PathStep<E>): LogState<E> {
    match step
    case Begin(e) => s.(calls := s.calls + [LogCall(e, 0)])
    case OfferNext(c) =>
      if c < |s.calls| && s.calls[c].next < n then
        LogState(s.calls[c := s.calls[c].(next := s.calls[c].next + 1)],
                 s.ops + [SinkOp(s.calls[c].next, Offer(s.calls[c].entry))])
      else s
    case Consume(i) => s.(ops := s.ops + [SinkOp(i, Receive)])
  }

  function LogRun<E>(n: nat, steps: seq<PathStep<E>>): LogState<E> {
    if steps == [] then LogState([], []) else LogNext(n, LogRun(n, steps[..|steps| - 1]), steps[|steps| - 1])
  }

  function Same<E(==)>(e: E): E -> bool { x => x == e }

  /** The calls with this entry that have offered it to this sink. */
  function OfferedTo<E(==)>(e: E, sink: nat): LogCall<E> -> bool { (c: LogCall<E>) => c.entry == e && c.next > sink }

  function EntriesOfCalls<E>(calls: seq<LogCall<E>>): seq<E> {
    seq(|calls|, i requires 0 <= i < |calls| => calls[i].entry)
  }

  /** As multisets, what a sink has been offered is what the calls past it carry. */
  ghost predicate OffersMatch<E(!new)>(s: LogState<E>, sink: nat) {
    forall e :: MatchesFor(s, sink, e)
  }

  predicate MatchesFor<E(==)>(s: LogState<E>, sink: nat, e: E) {
    Count(Offered(OpsOf(s.ops, sink)), Same(e)) == Count(s.calls, OfferedTo(e, sink))
  }

  lemma OpsOfAppend<E>(ops: seq<SinkOp<E>>, op: SinkOp<E>, sink: nat)
    ensures OpsOf(ops + [op], sink) == if op.sink == sink then OpsOf(ops, sink) + [op.op] else OpsOf(ops, sink)
  {
    assert (ops + [op])[..|ops|] == ops;
  }

  lemma ReceiveOffersNothing<E>(ops: seq<ChannelOp<E>>)
    ensures Offered(ops + [Receive]) == Offered(ops)
  {
    assert (ops + [Receive])[..|ops|] == ops;
  }

  /** What one offer adds, on either side of the match. */
  function OneOffer<E(==)>(call: LogCall<E>, sink: nat, e: E): nat {
    if call.next == sink && call.entry == e then 1 else 0
  }

  lemma CountAfterOffer<E(!new)>(n: nat, s: LogState<E>, c: nat, sink: nat, e: E)
    requires c < |s.calls| && s.calls[c].next < n
    ensures Count(LogNext(n, s, OfferNext(c)).calls, OfferedTo(e, sink)) ==
            Count(s.calls, OfferedTo(e, sink)) + OneOffer(s.calls[c], sink, e)
  {
    CountUpdate(s.calls, c, s.calls[c].(next := s.calls[c].next + 1), OfferedTo(e, sink));
  }

  lemma CountOffered<E(!new)>(n: nat, s: LogState<E>, c: nat, sink: nat, e: E)
    requires c < |s.calls| && s.calls[c].next < n
    ensures Count(Offered(OpsOf(LogNext(n, s, OfferNext(c)).ops, sink)), Same(e)) ==
            Count(Offered(OpsOf(s.ops, sink)), Same(e)) + OneOffer(s.calls[c], sink, e)
  {
    var call := s.calls[c];
    OpsOfAppend(s.ops, SinkOp(call.next, Offer(call.entry)), sink);
    OfferedAppend(OpsOf(s.ops, sink), call.entry);
    CountAppend(Offered(OpsOf(s.ops, sink)), call.entry, Same(e));
  }

  lemma OfferNextMatches<E(!new)>(n: nat, s: LogState<E>, c: nat, sink: nat, e: E)
    requires MatchesFor(s, sink, e) && c < |s.calls| && s.calls[c].next < n
    ensures MatchesFor(LogNext(n, s, OfferNext(c)), sink, e)
  {
    CountAfterOffer(n, s, c, sink, e);
    CountOffered(n, s, c, sink, e);
  }

  lemma LogNextMatches<E(!new)>(n: nat, s: LogState<E>, step: PathStep<E>, sink: nat, e: E)
    requires MatchesFor(s, sink, e)
    ensures MatchesFor(LogNext(n, s, step), sink, e)
  {
    match step
    case Begin(x) =>
      CountAppend(s.calls, LogCall(x, 0), OfferedTo(e, sink));
    case OfferNext(c) =>
      if c < |s.calls| && s.calls[c].next < n { OfferNextMatches(n, s, c, sink, e); }
    case Consume(i) =>
      OpsOfAppend(s.ops, SinkOp(i, Receive), sink);
      ReceiveOffersNothing(OpsOf(s.ops, sink));
  }

  /** In every interleaving of callers and consumers each sink has been offered, as multisets, exactly the entries of
      the calls that have come past it. */
  lemma {:induction false} OffersMatchCalls<E(!new)>(n: nat, steps: seq<PathStep<E>>, sink: nat)
    ensures OffersMatch(LogRun(n, steps), sink)
  {
    if steps != [] {
      var s := LogRun(n, steps[..|steps| - 1]);
      OffersMatchCalls(n, steps[..|steps| - 1], sink);
      forall e ensures MatchesFor(LogRun(n, steps), sink, e) {
        assert MatchesFor(s, sink, e);
        LogNextMatches(n, s, steps[|steps| - 1], sink, e);
      }
    }
  }

  lemma {:induction false} CountIsMultiplicity<E>(s: seq<E>, e: E)
    ensures Count(s, Same(e)) == multiset(s)[e]
  {
    if s != [] {
      var n := |s| - 1;
      CountIsMultiplicity(s[..n], e);
      assert s == s[..n] + [s[n]];
    }
  }

  lemma {:induction false} DoneCallsCount<E>(calls: seq<LogCall<E>>, n: nat, sink: nat, e: E)
    requires sink < n && forall c :: c in calls ==> c.next == n
    ensures Count(calls, OfferedTo(e, sink)) == Count(EntriesOfCalls(calls), Same(e))
  {
    if calls != [] {
      var m := |calls| - 1;
      DoneCallsCount(calls[..m], n, sink, e);
      assert calls[m] in calls;
      assert EntriesOfCalls(calls)[..m] == EntriesOfCalls(calls[..m]);
    }
  }

  /** Once all callers are through, every sink has been offered exactly the submitted entries, in some order, and they
      are, as multisets, what it has delivered, holds and has dropped. */
  lemma LogPathConserves<E(!new)>(n: nat, steps: seq<PathStep<E>>, sink: nat)
    requires sink < n && forall c :: c in LogRun(n, steps).calls ==> c.next == n
    ensures var s := LogRun(n, steps);
            var ops := OpsOf(s.ops, sink);
            && multiset(Offered(ops)) == multiset(EntriesOfCalls(s.calls))
            && multiset(EntriesOfCalls(s.calls)) ==
               multiset(After(ops).delivered + After(ops).queue) + multiset(Dropped(ops))
  {
    var s := LogRun(n, steps);
    var ops := OpsOf(s.ops, sink);
    OffersMatchCalls(n, steps, sink);
    ChannelConserves(ops);
    forall e ensures multiset(Offered(ops))[e] == multiset(EntriesOfCalls(s.calls))[e] {
      assert MatchesFor(s, sink, e);
      CountIsMultiplicity(Offered(ops), e);
      CountIsMultiplicity(EntriesOfCalls(s.calls), e);
      DoneCallsCount(s.calls, n, sink, e);
    }
  }

  class QueryLogger {
    var sinks: seq<Channel<LogEntry>>
    ghost var ops: seq<SinkOp<LogEntry>>    // everything that happened to the channels
    ghost var submitted: seq<LogEntry>      // every entry `log` was called with

    ghost predicate Wired()
      reads this
    {
      sinks == AllAfter(|sinks|, ops)
    }

    /** And between calls of `log` every sink has been offered just what was submitted, in order. */
    ghost predicate Valid()
      reads this
    {
      Wired() && forall i: nat :: i < |sinks| ==> Offered(OpsOf(ops, i)) == submitted
    }

    constructor (n: nat)
      ensures Valid() && |sinks| == n && ops == [] && submitted == []
    {
      sinks := seq(n, i => Channel([], []));
      ops, submitted := [], [];
    }

    /** `try_send`, ignoring the error of a full channel. */
    method TrySend(i: nat, entry: LogEntry)
      requires Wired() && i < |sinks|
      modifies this`sinks, this`ops
      ensures Wired() && |sinks| == old(|sinks|)
      ensures ops == old(ops) + [SinkOp(i, Offer(entry))]
    {
      var queue := sinks[i].queue;
      if |queue| < CAPACITY {
        sinks := sinks[i := sinks[i].(queue := queue + [entry])];
      }
      ops := ops + [SinkOp(i, Offer(entry))];
      assert ops[..|ops| - 1] == old(ops);
    }

    /** Offers the entry to every sink once, in sink order, without waiting for any. */
    method Log(entry: LogEntry)
      requires Valid()
      modifies this
      ensures Valid() && |sinks| == old(|sinks|)
      ensures submitted == old(submitted) + [entry]
      ensures ops == old(ops) + OffersTo(|sinks|, entry)
    {
      var len := |sinks|;
      ghost var ops0, submitted0 := ops, submitted;
      submitted := submitted + [entry];
      var i := 0;
      while i < len
        invariant Wired() && |sinks| == len && i <= len
        invariant submitted == old(submitted) + [entry]
        invariant ops == old(ops) + OffersTo(i, entry)
      {
        TrySend(i, entry);
        i := i + 1;
      }
      forall k: nat | k < len ensures Offered(OpsOf(ops, k)) == submitted {
        assert Offered(OpsOf(ops0, k)) == submitted0;
        LogReachesEverySinkOnce(ops0, len, entry, k);
      }
    }

    /** One turn of a sink's consumer: the oldest queued entry, if there is one. */
    method Recv(i: nat) returns (entry: Option<LogEntry>)
      requires Valid() && i < |sinks|
      modifies this`sinks, this`ops
      ensures Valid() && |sinks| == old(|sinks|) && ops == old(ops) + [SinkOp(i, Receive)]
      ensures entry == if old(sinks[i].queue) == [] then None else Some(old(sinks[i].queue[0]))
      ensures entry.Some? ==> sinks[i] == Channel(old(sinks[i].queue[1..]), old(sinks[i].delivered) + [entry.value])
      ensures entry.None? ==> sinks[i] == old(sinks[i])
    {
      var c := sinks[i];
      if c.queue == [] {
        entry := None;
      } else {
        entry := Some(c.queue[0]);
        sinks := sinks[i := Channel(c.queue[1..], c.delivered + [c.queue[0]])];
      }
      ops := ops + [SinkOp(i, Receive)];
      assert ops[..|ops| - 1] == old(ops);
      forall k: nat | k < |sinks| ensures Offered(OpsOf(ops, k)) == submitted {
        OpsOfAppend(old(ops), SinkOp(i, Receive), k);
        ReceiveOffersNothing(OpsOf(old(ops), k));
      }
    }

    /** A consumer's loop, as far as it gets without waiting: everything queued goes to the ring buffer. */
    method Drain(i: nat, sink: MemoryLogSink)
      requires Valid() && sink.Valid() && i < |sinks| && sink.received == sinks[i].delivered
      modifies this`sinks, this`ops, sink
      ensures Valid() && sink.Valid() && |sinks| == old(|sinks|)
      ensures sinks[i].queue == [] && sink.received == sinks[i].delivered
      ensures sink.received == old(sink.received) + old(sinks[i].queue)
    {
      while sinks[i].queue != []
        invariant Valid() && sink.Valid() && |sinks| == old(|sinks|)
        invariant sink.received == sinks[i].delivered
        invariant sinks[i].delivered + sinks[i].queue == old(sink.received) + old(sinks[i].queue)
        decreases |sinks[i].queue|
      {
        ghost var queue := sinks[i].queue;
        var entry := Recv(i);
        sink.Log(entry.value);
        assert queue == [queue[0]] + queue[1..];
      }
    }
  }

  // ----- the ring buffer -----------------------------------------------------------------------

  function LastOf<E>(s: seq<E>, n: nat): seq<E> { if |s| <= n then s else s[|s| - n..] }

  class MemoryLogSink {
    var buffer: seq<LogEntry>
    const capacity: nat
    ghost var received: seq<LogEntry>  // every entry logged

    ghost predicate Valid()
      reads this
    {
      buffer == LastOf(received, Max(capacity, 1))
    }

    constructor (capacity: nat)
      ensures Valid() && received == [] && this.capacity == capacity
    {
      this.buffer, this.capacity, this.received := [], capacity, [];
    }

    /** Keeps the last `capacity` entries; a capacity of zero still keeps one. */
    method Log(entry: LogEntry)
      requires Valid()
      modifies this
      ensures Valid() && received == old(received) + [entry]
    {
      if |buffer| >= capacity {
        if buffer != [] { buffer := buffer[1..]; }
      }
      buffer := buffer + [entry];
      received := received + [entry];
    }

    method GetRecent() returns (entries: seq<LogEntry>)
      requires Valid()
      ensures entries == LastOf(received, Max(capacity, 1))
    {
      entries := buffer;
    }
  }

  function Reverse<E>(s: seq<E>): (r: seq<E>)
    ensures |r| == |s|
  {
    if s == [] then [] else [s[|s| - 1]] + Reverse(s[..|s| - 1])
  }

  /** `buffer.iter().rev().take(limit)` */
  function GetLogs<E>(buffer: seq<E>, limit: nat): seq<E> {
    var reversed := Reverse(buffer);
    if limit < |reversed| then reversed[..limit] else reversed
  }

  lemma {:induction false} ReverseAt<E>(s: seq<E>, i: nat)
    requires i < |s|
    ensures Reverse(s)[i] == s[|s| - 1 - i]
  {
    if i > 0 { ReverseAt(s[..|s| - 1], i - 1); }
  }

  lemma DeliveredWasOffered<E>(ops: seq<ChannelOp<E>>, e: E)
    requires e in After(ops).delivered
    ensures e in Offered(ops)
  {
    var c := After(ops);
    ChannelConserves(ops);
    assert e in c.delivered + c.queue;
    assert e in multiset(c.delivered + c.queue);
    assert e in multiset(Offered(ops));
  }

  lemma NewestOf<E>(delivered: seq<E>, capacity: nat, limit: nat, i: nat)
    ensures |GetLogs(LastOf(delivered, capacity), limit)| == Min(limit, Min(capacity, |delivered|))
    ensures i < |GetLogs(LastOf(delivered, capacity), limit)| ==>
              GetLogs(LastOf(delivered, capacity), limit)[i] == delivered[|delivered| - 1 - i]
  {
    var buffer := LastOf(delivered, capacity);
    if i < |GetLogs(buffer, limit)| { ReverseAt(buffer, i); }
  }

  /** The same of a ring buffer that may have received less than was delivered. */
  lemma ReceivedWasOffered<E>(ops: seq<ChannelOp<E>>, received: seq<E>, capacity: nat, limit: nat, i: nat)
    requires received <= After(ops).delivered
    ensures var shown := GetLogs(LastOf(received, capacity), limit);
            && |shown| == Min(limit, Min(capacity, |received|))
            && (i < |shown| ==> shown[i] == received[|received| - 1 - i] && shown[i] in Offered(ops))
  {
    NewestOf(received, capacity, limit, i);
    if i < |received| {
      assert After(ops).delivered[|received| - 1 - i] == received[|received| - 1 - i];
      DeliveredWasOffered(ops, received[|received| - 1 - i]);
    }
  }

  /** From the channel to the API: as many logs are shown as the limit, the buffer and the history
      allow, and the i-th is the i-th newest delivered entry, which was offered. */
  lemma {:induction false} LogsAreNewestDelivered<E>(ops: seq<ChannelOp<E>>, capacity: nat, limit: nat, i: nat)
    ensures var delivered := After(ops).delivered;
            var shown := GetLogs(LastOf(delivered, Max(capacity, 1)), limit);
            && |shown| == Min(limit, Min(Max(capacity, 1), |delivered|))
            && (i < |shown| ==> shown[i] == delivered[|delivered| - 1 - i] && shown[i] in Offered(ops))
  {
    var delivered := After(ops).delivered;
    NewestOf(delivered, Max(capacity, 1), limit, i);
    if i < |delivered| { DeliveredWasOffered(ops, delivered[|delivered| - 1 - i]); }
  }
}
