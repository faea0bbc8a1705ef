# AdNope, modelled and proved in Dafny

AdNope is a DNS sinkhole: it answers queries for listed domains with a null address, answers a few configured names
itself, caches what upstream resolvers say, and keeps statistics and a query log. This project models its request
path, its blocklists, its resolution policies, its counters and its log, and proves what holds of them in every run.
`dafny verify dfyconfig.toml` checks everything.

| file | models |
|---|---|
| `Prelude.dfy`, `Permutations.dfy` | 64-bit counters, counting and tallies, orders of events |
| `Dns.dfy` | records, record types, query names |
| `DomainMatcher.dfy` | the suffix-scanning matcher against a label specification |
| `BlocklistManager.dfy` | parsing, downloads that complete in any order, merging |
| `AppState.dfy` | pause and resume |
| `Stats.dfy` | the statistics collector, latency accounting, top-k |
| `Resolvers.dfy` | the four resolution policies and their agreement, fairness and accounting |
| `QueryLog.dfy` | bounded lossy channels, sinks, the ring buffer, the newest-first view |
| `HandlerModel.dfy` | the request handler as a state machine of interleaving requests and refreshes |
| `CacheSafety.dfy`, `Ledger.dfy`, `StampOrder.dfy`, `Gates.dfy`, `Accounting.dfy`, `ExactlyOnce.dfy` | what every run of that machine keeps |
| `Responses.dfy` | what clients get and the log says, outcome by outcome |
| `DnsHandler.dfy` | the handler as a class whose methods take exactly the machine's steps |
| `ListedNames.dfy` | what a blocklist line means for queries: text suffixes against labels |
| `EndToEnd.dfy` | what a downloaded or configured name means for a query, and whose records a client gets |

## How the handler is modelled

`HandlerModel.Next` takes one step: a request or a background refresh making its next access to shared state, an
upstream replying in any way, the cache evicting any key, the blocklist being swapped, blocking being paused or
resumed, a request arriving, or time passing. Every access is its own step: each counter update, the pause check and
the matcher check, the cache read and the clock read that classifies what was read, the resolver call, the time stamp
and the insertion, the response and the log entry. A step that does not apply changes nothing, so the theorems range
over every sequence of steps, from every initial matcher and instant.

`DnsHandlers.DnsHandler` is the program in its own form: fields, and methods with the branches of the source. A ghost
run records which step each access is, and `Valid()` ties every field to the state that run leads to. Between any
two accesses the methods call `Await`, whose contract allows any steps of anybody else; so the methods are
proved under arbitrary interference, and `HandlerIsSafe` carries the run theorems over to the real fields.

Instants are nanoseconds, `as_secs` and `as_millis` round down. Counters wrap at 2^64; laws that add counters up
are stated while fewer than 2^64 requests have arrived.

## Findings

- An empty key in the matcher would plainly match every name that ends in a dot, but the loop stops before looking an
  emptied suffix up: scan and plain reading agree on all names exactly when the empty string is not a key
  (`ScanIsPlainIffNoEmptyKey`). Parsed lists never contain it (`ParseLineNormalises`).
- Source ids depend on the completion order exactly when two or more downloads may run at a time and one domain is
  listed under two ids (`IdsAreOrderIndependentIff`); they tell lists apart exactly up to 256 lists
  (`SourceIdsAreUniqueIff`).
- Queries are folded to lower case and lose their final dot, allowlist lines and local records do neither: one with an
  upper-case letter or a final dot never takes effect (`AllowlistLineMattersIff`, `LocalRecordIsServableIff`,
  `UnmetRecordIsNeverServed`). Blocklist lines are folded but keep their final dot, and with one block nothing
  (`FinalDotDisarmsEntry`). Which lines block some query, exactly: `BlocklistLineBlocksIff`.
- The scan cuts names at every dot, so a key can match in the middle of a label that has an escaped dot
  (`ScanCutsLabel`); suffixes of the text are suffixes of the labels exactly on names without one
  (`SuffixesAreOfLabelsIff`).
- A newer cache entry can be overwritten by an older one, exactly when one lookup of a key overtakes another between
  time stamp and insertion (`StampsGoBackIffOvertaken`, `OlderEntryCanWin`).
- A statistics snapshot can show more blocked and cached queries than queries, by at most those that arrived while it
  was taken (`SnapshotCanExceed`, `SnapshotExcess`).
- Round-robin is fair over every window of calls, the wrap of its 64-bit counter included, exactly when the number of
  upstreams divides 2^64 (`FairForeverIffDivides`); until the wrap it always is (`FairUntilWrap`).
- A fresh cache answer can outlive the time to live of its records exactly when the configured minimum exceeds one
  of them (`FreshRespectsTtlsIff`).
- Cached records go out exactly as the upstream gave them, time to live included; the remaining freshness is only in the
  log (`CachedAnswersAreGenuineAndInTime`).
- Latencies are collected per built upstream but reported under the configured name at the same index. The default
  upstream, built when none is configured, is therefore always reported as "Unknown"; for distinct configured urls the
  labels printed are right exactly when none of the first 16 that could not be built precedes one that could
  (`DumpedLabelsAreRightIff`). With more than 16 upstreams some successes are not counted (`CountsSumToSamples`).
- A ring buffer of capacity zero still keeps one entry (`MemoryLogSink.Log`).

## Model

| member | source | states |
|---|---|---|
| Dns.QueryNameFoldsCase | src/server/dns_request_handler.rs:165-180 | two spellings equal up to ASCII case, or also up to one final dot, are processed under one name |
| Dns.QueryNameLetters | src/server/dns_request_handler.rs:165-180 | the processed name is what was asked without one final dot, capital letters 32 places on and every other character as it was |
| Dns.ConfiguredNameReachable | src/server/dns_request_handler.rs:169-173 | a name as configured is the processed name of some fully qualified query exactly when each of its labels is what a label that names are written with is folded to |
| Dns.SpellableIsLower | src/server/dns_request_handler.rs:173 | so only a name in lower case is |
| Dns.FinalDotIsNeverMet | src/server/dns_request_handler.rs:170-172 | a configured name written with its final dot is the processed name of no query, whatever labels can be written |
| Dns.RouterLanWithDotIsNeverMet | src/server/dns_request_handler.rs:89-91 | in particular `router.lan.`, lower-case as it is |
| DomainMatcher.HashedMatcher.constructor | src/engine/domain_matcher.rs:20-26 | the allowlist holds exactly the given lines, the map is taken as is |
| DomainMatcher.HashedMatcher.Check | src/engine/domain_matcher.rs:31-59 | the loop ends and answers exactly when the name is not allowlisted and some key is a label suffix of it, with the id of the longest such key |
| DomainMatcher.ScanFindsLongest | src/engine/domain_matcher.rs:40-58 | stripping labels from the left finds a key exactly when one is a label suffix, and finds the longest first, for any dots anywhere |
| DomainMatcher.ScanIsPlainIffNoEmptyKey | src/engine/domain_matcher.rs:47-53 | the scan equals "some key is a label suffix" on all names exactly when the empty string is no key |
| DomainMatcher.SubdomainStaysBlocked | src/engine/domain_matcher.rs:33-56 | prefixing labels to a blocked name keeps it blocked exactly when the longer name is not allowlisted, under a key no shorter |
| DomainMatcher.MoreKeysStayBlocked | src/engine/domain_matcher.rs:40-56 | adding keys never unblocks a name |
| BlocklistManager.ParseLineIff | src/engine/blocklist_manager.rs:35-44 | a line gives a key exactly if its text, white space around it aside, is there and is no comment, and the key is that text letter by letter in lower case; it gives none exactly if it is blank or a comment |
| BlocklistManager.ParseLineNormalises | src/engine/blocklist_manager.rs:35-44 | a parsed key is non-empty, trimmed, lower-case and no comment, and parsing it again gives it back |
| BlocklistManager.ReadLinesAre | src/engine/blocklist_manager.rs:53-91 | the lines read of a body are its lines up to the first read error, or all of them; an unreachable list has none |
| BlocklistManager.FetchAndParse | src/engine/blocklist_manager.rs:53-91 | the entries are the parses of the lines read up to the end or the first read error, in order, with the list's id; a failed request gives none |
| BlocklistManager.FetchAll | src/engine/blocklist_manager.rs:103-116 | the parsed lists arrive in completion order, any that the limit on concurrent downloads admits, each under the id of its sorted position |
| BlocklistManager.MergeResults | src/engine/blocklist_manager.rs:118-126 | the nested loops insert every entry in order and count the raw entries |
| BlocklistManager.Refresh | src/engine/blocklist_manager.rs:96-135 | for any completion order that the limit admits, the new matcher holds the merge of the downloads and the configured allowlist |
| BlocklistManager.SourceIdsAreUniqueIff | src/engine/blocklist_manager.rs:108-109 | list ids are distinct exactly up to 256 lists |
| BlocklistManager.BlockLabelsAreRightIff | src/stats.rs:176-192 | for distinct names the block counts of every list are printed under its own name exactly up to 256 lists, and those of any further list under number 255's |
| BlocklistManager.MergedCovers | src/engine/blocklist_manager.rs:118-126 | every listed domain becomes a key, and each key's id is that of a list naming it |
| BlocklistManager.RefreshVerdict | src/engine/blocklist_manager.rs:103-134 | end to end: blocked exactly when not allowlisted and the parse of some downloaded line is a label suffix, under the id of a list naming the longest |
| BlocklistManager.RefreshConfluence | src/engine/blocklist_manager.rs:113-126 | any two completion orders give the same verdict on every name, and the same id when lists are disjoint |
| BlocklistManager.LastDownloadWins | src/engine/blocklist_manager.rs:121-123 | a list that names a domain and completes last of all gives the domain its id |
| BlocklistManager.OneAtATimeIsInOrder | src/engine/blocklist_manager.rs:110-114 | one download at a time completes in list order |
| BlocklistManager.IdsAreOrderIndependentIff | src/engine/blocklist_manager.rs:108-126 | over all completion orders that the limit admits, ids are the same exactly when at most one download runs at a time or no domain is listed under two ids |
| BlocklistManager.MoreLinesStayBlocked | src/engine/blocklist_manager.rs:72-76 | reading more lines never unblocks a name, whatever the completion orders |
| EndToEnd.ListedNamesAreSunk | src/server/dns_request_handler.rs:353-373 | with a refreshed matcher in force, a checked request is sunk for good under a list naming the longest listed suffix exactly when its name is listed and not allowlisted; otherwise it goes on to the cache |
| EndToEnd.ServedRecordsAreUpstreamsOwn | src/server/dns_request_handler.rs:418-436 | given every upstream's reply to each resolver call: in every run, behind any policy, a forwarded answer is what is visible of the first answering upstream's reply to that request's own call, under that upstream's url, and a cached one is such a reply to an earlier call for the same key, within its age |
| EndToEnd.SentRecordsAreUpstreamsOwn | src/server/dns_request_handler.rs:375-469 | for every response ever sent: a forwarded one carries what is visible of the first answering upstream's reply to the request's own call, a cached one of such a reply to an earlier call for that name and type, within its age, and SERVFAIL means that in the request's own call no upstream answered |
| EndToEnd.AllowlistLineMattersIff | src/engine/domain_matcher.rs:33-35 | an allowlist line changes some query's verdict exactly when it is new, otherwise blocked, and made of labels that a query's labels are folded to |
| EndToEnd.LocalRecordIsServableIff | src/server/dns_request_handler.rs:329-330 | a configured local record is served to some query exactly when it parses, is made of labels that a query's labels are folded to, and is not IPv6 with IPv6 disabled |
| EndToEnd.UnmetRecordIsNeverServed | src/server/dns_request_handler.rs:323-351 | in every run no request is answered from a local record whose name has another label, such as one with an upper-case letter or an empty one |
| EndToEnd.FinalDotDisarmsEntry | src/server/dns_request_handler.rs:170-172 | a name with its final dot has such a label; and neither an allowlist line nor a blocklist key with one changes the verdict on any query |
| ListedNames.SuffixesAreOfLabelsIff | src/engine/domain_matcher.rs:47-53 | the suffixes that the scan cuts from the text of a name are the suffixes of its labels exactly when no label has an escaped dot |
| ListedNames.ScanReadsLabels | src/engine/domain_matcher.rs:40-58 | on such a name the scan finds a key exactly when one is written from the name's last labels |
| ListedNames.ScanCutsLabel | src/engine/domain_matcher.rs:47-53 | on the single label `a\.b` it finds the key `b` |
| ListedNames.BlocklistKeyMeetsQueryIff | src/engine/domain_matcher.rs:40-56 | the scan of some query comes to a key exactly when the key is empty, or its labels but the first are ones that a query's labels are folded to and the first is, or is what follows an escaped dot in one |
| ListedNames.BlocklistKeyBlocksIff | src/engine/blocklist_manager.rs:121-123 | a key added to a list blocks some query that was not blocked exactly when the key is such, with nothing blocked before at the key or, for part of a label, at the whole label |
| ListedNames.BlocklistLineBlocksIff | src/engine/blocklist_manager.rs:35-44 | one more line of a list blocks some query that the lines before it do not exactly when it parses to such a key |
| AppStates.AppState.constructor | src/engine/state.rs:12-16 | blocking starts active with no history |
| AppStates.AppState.IsBlockingActive | src/engine/state.rs:18-26 | active exactly unless the last control is a pause that has not run out |
| AppStates.AppState.PauseBlocking | src/engine/state.rs:28-31 | a pause overrides everything before it |
| AppStates.AppState.ResumeBlocking | src/engine/state.rs:33-36 | a resume ends any pause |
| AppStates.AppState.GetPauseRemainingSecs | src/engine/state.rs:38-47 | reported exactly while inactive at that instant, as the whole seconds left of the last pause |
| Stats.StatsCollector.IncBlockedBySource | src/stats.rs:113-118 | the total and that source's counter grow by one (mod 2^64), nothing else changes |
| Stats.StatsCollector.IncClientQuery | src/stats.rs:121-123 | that client's count grows by one from zero or its value, nothing else changes |
| Stats.StatsCollector.RecordUpstreamLatency | src/stats.rs:141-146 | the latency arrays keep equal to the totals and counts of all recorded samples; other counters are untouched |
| Stats.RecordAccounts | src/stats.rs:141-146 | recording one sample extends the recount of totals and counts by it |
| Stats.CountsSumToSamples | src/stats.rs:141-146 | the 16 counts add up to the samples exactly when every sample is of one of the first 16 upstreams |
| Stats.StatsCollector.GetTopK | src/stats.rs:214-227 | min(k, size) distinct keys with their true counts, non-increasing, none omitted that beats one included, for any iteration order |
| Stats.TopCountsAreUnique | src/stats.rs:214-227 | any two correct top-k answers have the same counts in the same places |
| Stats.StatsCollector.GetSnapshot | src/stats.rs:230-249 | the snapshot has the counters and a correct top 5 of each map, read at one moment |
| Resolvers.ContainsIffOccurs | src/resolver/mod.rs:215 | the text search succeeds exactly if the part occurs at some position |
| Resolvers.AnswerIsExact | src/resolver/mod.rs:207-223 | an answer is the records found, or none if the error text has "no records found" anywhere; any other error is no answer |
| Resolvers.HandleLookupResult | src/resolver/mod.rs:197-224 | found records are passed on with the upstream's url; an error with "no records found" anywhere is an empty answer; both add one latency sample; any other error is kept and adds none |
| Resolvers.SingleResolver.Resolve | src/resolver/single.rs:16-35 | succeeds with its upstream's own answer exactly when it answers |
| Resolvers.SequentialResolver.Resolve | src/resolver/sequential.rs:16-38 | the first answer in list order with its url and one sample, an error and no sample if none answers |
| Resolvers.RoundRobinResolver.Resolve | src/resolver/round_robin.rs:28-56 | the first answer in cyclic order from the counter, which moves by one mod 2^64; the upstreams asked are distinct, start there, all before the last failed, and all were asked when it errors |
| Resolvers.ResolveAll | src/resolver/round_robin.rs:28-56 | over any run of calls the upstreams started at are the counter's sequence from its value at the start, each equally often up to one when the counter does not wrap or n divides 2^64; the latency record grows by what the calls sampled, and from a fresh collector with at most 16 upstreams the counts add up to the successful results |
| Resolvers.ParallelResolver.Resolve | src/resolver/parallel.rs:16-46 | for every completion order, the first success in it with its url and one sample; terminates with the shrinking set; an error only if all fail |
| Resolvers.ParallelResolver.SelectAll | src/resolver/parallel.rs:35-36 | the finished lookup is taken out and the others stay, as multisets |
| Permutations.RotationIsPermutation | src/resolver/round_robin.rs:37-38 | (start + i) mod n for i < n visits every index once |
| Resolvers.SuccessIffSomeAnswer | src/resolver/mod.rs:207-223 | in any order, success exactly when some upstream answers, and then one upstream's own answer with its own url and index |
| Resolvers.PoliciesAgree | src/resolver/mod.rs:51-71 | any two orders agree on success, and on the whole answer when there is one upstream |
| Resolvers.CreateResolver | src/resolver/mod.rs:47-71 | no upstream is an error, one gives the single resolver, and otherwise the configured name gives the resolver of that policy, any unknown name the parallel one |
| Resolvers.ConfiguredOrders | src/resolver/mod.rs:56-71 | "sequential" considers upstreams in list order only, "round-robin" all of them cyclically from the counter's residue, any other name in any order |
| Resolvers.AnswerIsOrderIndependentIff | src/resolver/mod.rs:56-71 | the answer is the same for all orders exactly when all answering upstreams give the same one under the same url |
| Resolvers.ConfiguredPolicyNeverDecidesSuccess | src/resolver/mod.rs:47-71 | whatever policy names are configured, the same lookups succeed; one upstream gives the single resolver's answer |
| Resolvers.FairUntilWrap | src/resolver/round_robin.rs:34 | over m calls without a counter wrap each of n upstreams starts floor(m/n) or ceil(m/n) times |
| Resolvers.FairForeverIffDivides | src/resolver/round_robin.rs:34 | that holds over every window, across the wrap, exactly when n divides 2^64 |
| Resolvers.UnfairAcrossWrap | src/resolver/round_robin.rs:34 | otherwise the window ending just after the wrap starts twice at upstream 0 |
| Resolvers.LatencyCountsSuccesses | src/stats.rs:141-146 | over any run of calls, under any policy, that sampled as the policies do, with at most 16 upstreams the counts add up to the successful calls |
| Resolvers.CreateConfiguredUpstreams | src/resolver/mod.rs:83-97 | the built list is the usable urls in configured order |
| Resolvers.CreateUpstreams | src/resolver/mod.rs:31-43 | without configured upstreams the default one is built, otherwise the usable ones in configured order |
| Resolvers.LabelsAreRightIff | src/stats.rs:160-174 | for distinct urls the first n built upstreams have the first configured names exactly when no unusable url among the first n configured precedes a usable one |
| Resolvers.DumpedLabelsAreRightIff | src/stats.rs:160-174 | for distinct urls every name that the dump can print, for indices 0 to 15, is right exactly when upstreams are configured and that condition holds for n = 16, or there is no upstream at all |
| QueryLog.ChannelConserves | src/logger/mod.rs:66-90 | delivered then queued is a subsequence of offered; offered = delivered + queued + dropped; equal exactly when nothing is dropped; never over capacity |
| QueryLog.LosslessIffNeverFull | src/logger/mod.rs:83-88 | something is dropped exactly when some entry is offered to a full queue |
| QueryLog.SinksAreIndependent | src/logger/mod.rs:82-89 | in any interleaving a sink's channel is what its own operations alone would make it |
| QueryLog.LogReachesEverySinkOnce | src/logger/mod.rs:80-90 | one call of `log` that nobody interrupts adds exactly one offer of its entry to each sink's history |
| QueryLog.OffersMatchCalls | src/logger/mod.rs:80-90 | with any number of calls of `log` and consumers interleaving offer by offer, each sink has been offered, as multisets, exactly the entries of the calls that are past it |
| QueryLog.LogPathConserves | src/logger/mod.rs:66-90 | when those calls are through, the submitted entries are, as multisets, what each sink was offered, and what it has delivered, holds and has dropped |
| QueryLog.QueryLogger.Log | src/logger/mod.rs:80-90 | every sink is offered the entry once, in sink order, and nothing else happens to any; every sink's offers stay equal to what was submitted |
| QueryLog.QueryLogger.Recv | src/logger/mod.rs:70-71 | a consumer gets the oldest queued entry of its own sink |
| QueryLog.QueryLogger.Drain | src/logger/mod.rs:69-73 | the consumer loop passes on exactly what is queued, in order, and empties the queue |
| QueryLog.MemoryLogSink.Log | src/logger/memory_sink.rs:30-36 | the buffer stays the last max(capacity, 1) entries received |
| QueryLog.MemoryLogSink.GetRecent | src/logger/memory_sink.rs:18-21 | returns the last max(capacity, 1) entries received, oldest first |
| QueryLog.LogsAreNewestDelivered | src/api/in_memory_stats.rs:38-41 | from channel to API: min(limit, max(capacity, 1), delivered) entries, the i-th being the i-th newest delivered one, and offered |
| HandlerModel.RequestsTerminate | src/server/dns_request_handler.rs:474-534 | whatever others do, a request takes at most 15 steps of its own and is then done |
| CacheSafety.CachedAnswersAreGenuineAndInTime | src/server/dns_request_handler.rs:113-152 | in every run a cached answer is what is visible of an upstream answer for that very key, stamped at T after it, and at service fresh by its records' times to live and the configured minimum counted from T, or stale within the grace period after that; a forwarded one is an upstream's own |
| CacheSafety.EntryIsUsableAs | src/server/dns_request_handler.rs:123-151 | an entry stamped at t is fresh at an instant exactly if the configured minimum is not over or none of its records, if any, has run out; stale exactly up to the grace period after that; and of no use later |
| CacheSafety.LookupServesIffUsable | src/server/dns_request_handler.rs:190-210 | in every run, whatever others do between a request's lookup and its reading of the clock: it has a hit, fresh or stale, exactly if the latest surviving entry for its name and type is still good for one by that rule, and goes upstream otherwise; without evictions that entry is the latest insert |
| CacheSafety.FreshRespectsTtlsIff | src/server/dns_request_handler.rs:126-131 | fresh never outlives a record's TTL exactly when the configured minimum exceeds none |
| CacheSafety.FreshHitsOutliveNoRecord | src/server/dns_request_handler.rs:190-210 | then in every run a fresh hit is served before any of its records has run out, counted from an instant no earlier than the upstream's answer |
| CacheSafety.LookupIsLatestInsert | src/server/dns_request_handler.rs:195-209 | in every run the cache is the history scan: the latest insert of a key not evicted since |
| CacheSafety.ServedEntryWasLatestInsert | src/server/dns_request_handler.rs:190-210 | what a request is served is the classification at that moment of the entry that was the latest surviving insert when it looked |
| CacheSafety.UnevictedKeyIsAnswered | src/server/dns_request_handler.rs:195-209 | a key never evicted yields its latest insert, usable whenever now is before its second deadline |
| CacheSafety.EveryInsertIsStamped | src/server/dns_request_handler.rs:113-152 | every insertion ever made is by a request or refresh that got a successful answer itself, for that key, of that answer's visible records, stamped at or after it |
| StampOrder.StampsGoBackIffOvertaken | src/server/dns_request_handler.rs:123-151 | in every run the stamps carried by the entries inserted for a key, in the order of insertion, never go backwards exactly when no lookup of it that stamped before another, at an earlier instant, inserts after it |
| StampOrder.NewestStampIsCached | src/server/dns_request_handler.rs:195-209 | then what the cache holds for a key carries the newest stamp that any insertion of it carried |
| StampOrder.OlderEntryCanWin | src/server/dns_request_handler.rs:123-151 | from any state with two requests for one key about to stamp, the first to stamp can be the last to insert, and its older entry stays |
| Ledger.OneInsertPerSuccess | src/server/dns_request_handler.rs:108-155 | in every run each request and each refresh gets at most one reply, inserts exactly one entry of its visible records once a success has come to the insertion, and nothing otherwise |
| Ledger.FailedLookupsNeverInsert | src/server/dns_request_handler.rs:392-396 | a lookup or a refresh that has failed has no insertion in any run, then or later |
| Ledger.OutcomeIsReply | src/server/dns_request_handler.rs:418-469 | in every run a request answered from upstream got one reply, a success with those records after the filter and that url, and one answered with an error got one reply, that error |
| Gates.Ipv6NeverLeaks | src/server/dns_request_handler.rs:486-502 | with IPv6 disabled no cache entry, request, refresh or response of any run contains an AAAA record |
| Gates.FilterKeepsTheRest | src/server/dns_request_handler.rs:116-118 | the filter leaves a record list alone exactly when it has no AAAA record |
| Gates.FilterIsPointwise | src/server/dns_request_handler.rs:116-118 | records are taken one by one in order: with IPv6 disabled every IPv6 address goes, otherwise nothing does |
| Gates.EarlyGatesAreExact | src/server/dns_request_handler.rs:323-351 | the IPv6 gate and the local table answer exactly the requests they should, with the table's records; what the table answers has passed the IPv6 gate, and nothing past both qualifies for either |
| Gates.ServedOnlyThroughOpenGate | src/server/dns_request_handler.rs:485-533 | a request ending cached, forwarded or failed took its own pause check while paused or its own block check while the matcher then in force did not match |
| Gates.SunkOnlyWhileActive | src/server/dns_request_handler.rs:353-373 | in every run a request that is sunk under an id took its own pause check while blocking was not paused, and later its own block check while the matcher then in force named that id |
| Gates.PauseCheckIsExact | src/server/dns_request_handler.rs:359-362 | the pause check sends a request past the blocklist exactly if the last control before it was a pause that had not run out |
| Gates.PausedRequestIsNeverSunk | src/server/dns_request_handler.rs:359-362 | such a request is never sunk, whatever happens later |
| Gates.MatchedRequestIsSunk | src/server/dns_request_handler.rs:353-373 | once its block check matches a request ends blocked under that id, whatever is swapped, resumed or cached later |
| Gates.InactiveIffLastControlPauses | src/engine/state.rs:18-36 | in every run blocking is inactive exactly when the last control step is a pause that has not run out |
| Gates.ActiveStaysActive | src/engine/state.rs:18-26 | without another pause active blocking stays active |
| Accounting.CountersEqualRecount | src/stats.rs:98-138 | in every state every counter, per client, domain and source too, equals the recount of the updates made by requests, mod 2^64 |
| Accounting.CountersAddUp | src/stats.rs:98-138 | each group of counters adds up to the requests that have made that update |
| Accounting.BlocksNeverExceedQueries | src/stats.rs:121-138 | no client and no domain ever has more blocks than queries |
| Accounting.QuietCountersAgree | src/stats.rs:98-138 | with no request in flight client and domain queries each sum to the total, and sources, client blocks and domain blocks each to the blocked count |
| Accounting.QueriesPartition | src/server/dns_request_handler.rs:474-534 | total = ipv6 + local + blocked + hits + forwarded + failed + undecided in every state, so blocked + hits <= total |
| Accounting.SnapshotExcess | src/stats.rs:230-234 | loaded one after the other in any run, blocked and hits together exceed the total loaded first by at most the queries that arrived meanwhile |
| Accounting.SnapshotCanExceed | src/stats.rs:230-234 | and they can exceed it |
| DnsHandlers.DnsHandler.LoadCounts | src/stats.rs:230-234 | so the three loads of a snapshot under any interference obey that bound |
| ExactlyOnce.CompletedRequestAnsweredOnce | src/server/dns_request_handler.rs:213-250 | every completed request has exactly one response, its outcome's, and with logging on exactly one log entry of its outcome's action, with the latency at some instant between its start and now; none with logging off |
| Responses.EveryResponseFits | src/server/dns_request_handler.rs:213-321 | every response ever sent: NOERROR with exactly the cached, forwarded or local records, or none for the IPv6 refusal; one 60-second 0.0.0.0 or :: record under the queried name, or NXDOMAIN, for a blocked name; SERVFAIL without records for an error |
| Responses.LocalMatchIff | src/server/dns_request_handler.rs:323-351 | a name and type are answered locally exactly when an address of that kind is configured for a name that parses |
| Responses.LocalOutcome | src/server/dns_request_handler.rs:70-93 | and the answer is one record of that address with the configured minimum time to live |
| Responses.EveryLogEntryFits | src/server/dns_request_handler.rs:236-247 | every log entry ever submitted has its request's client, name and type, the action, list id, upstream text and remaining seconds of its outcome, and the whole milliseconds since its own reading of the query |
| ExactlyOnce.UpstreamCallsAreConserved | src/server/dns_request_handler.rs:382-397 | per key, resolver calls plus refreshes yet to call = misses that called + stale hits; each stale hit has exactly one refresh, of its own key |
| ExactlyOnce.BlockedLogsMatchCounters | src/server/dns_request_handler.rs:260-319 | with nothing in flight the blocked log entries are the blocked counter plus the IPv6 refusals |
| DnsHandlers.BuildLocalRecords | src/server/dns_request_handler.rs:70-93 | the table has one record, of the address's type and the minimum TTL, for exactly the configured names that parse |
| DnsHandlers.DnsHandler.constructor | src/server/dns_request_handler.rs:60-105 | a new handler is the machine's initial state |
| DnsHandlers.DnsHandler.ServeRecords | src/server/dns_request_handler.rs:213-250 | sends the outcome's response, then logs its entry if logging is on, and completes the request |
| DnsHandlers.DnsHandler.ServeBlocked | src/server/dns_request_handler.rs:253-321 | counts the block four ways, answers 0.0.0.0, :: or NXDOMAIN by type, logs, completes |
| DnsHandlers.DnsHandler.HandleLocalRecords | src/server/dns_request_handler.rs:323-351 | completes the request from the table or passes it on to the pause check |
| DnsHandlers.DnsHandler.CheckBlocklist | src/server/dns_request_handler.rs:359-366 | reads the pause state and then the matcher in force, under any interference: nothing if paused at the first reading, else what the matcher says at the second |
| DnsHandlers.DnsHandler.HandleBlockedRequest | src/server/dns_request_handler.rs:353-373 | completes the request as blocked or passes it on to the cache, the latter always if blocking is paused |
| DnsHandlers.DnsHandler.CheckCache | src/server/dns_request_handler.rs:190-210 | returns the classification, at the clock read after it, of the entry held for the query's own name and type, and passes on upstream if there is none of use |
| DnsHandlers.DnsHandler.HandleCachedResponse | src/server/dns_request_handler.rs:375-416 | completes a hit, fresh or stale, after counting it and starting a refresh if stale |
| DnsHandlers.DnsHandler.SpawnRefresh | src/server/dns_request_handler.rs:386-397 | starts one refresh of the query's own name and type |
| DnsHandlers.DnsHandler.Stamp | src/server/dns_request_handler.rs:123-144 | the entry made is fresh for as long as the configured minimum or all its records last from the clock read, and stale for the grace period after that |
| DnsHandlers.DnsHandler.InsertEntry | src/server/dns_request_handler.rs:133-151 | the key then holds that entry and every other key is untouched |
| DnsHandlers.DnsHandler.ResolveAndCache | src/server/dns_request_handler.rs:108-155 | for a request or a refresh, every reply and interleaving: a success inserts exactly one entry, of the visible records and stamped on the way, and a request goes on with them; an error inserts nothing |
| DnsHandlers.DnsHandler.ResolveAndServe | src/server/dns_request_handler.rs:418-469 | completes the request with the upstream's records under NOERROR, or with SERVFAIL |
| DnsHandlers.DnsHandler.RunRefresh | src/server/dns_request_handler.rs:392-396 | a background refresh ends under its own key, having inserted one entry if it succeeded and nothing if it failed |
| DnsHandlers.DnsHandler.UpdateBlocklist | src/server/dns_request_handler.rs:158-162 | swaps the matcher in one step and touches nothing else |
| DnsHandlers.DnsHandler.HandleRequest | src/server/dns_request_handler.rs:474-534 | under any interference a new request for the folded name is taken in and completes, with the code and records that its outcome calls for, a local one with the address configured |
| DnsHandlers.DnsHandler.HandlerIsSafe | src/server/dns_request_handler.rs:38-56 | the real cache, responses, counters and log offers satisfy the run theorems at every moment |
| DnsHandlers.DnsHandler.SinkConservesSubmitted | src/logger/mod.rs:66-90 | what the handler's requests have submitted is, as multisets, what each real sink has delivered, holds and has dropped |
| DnsHandlers.DnsHandler.ShownLogsAreOfRequests | src/api/in_memory_stats.rs:38-41 | what the API shows of a sink's ring buffer, even while it lags behind its channel, is newest received first and only entries of finished requests, each of its request's outcome, with a latency at some instant since it began |

## Left out

- CachedAnswersAreGenuineAndInTime: the age bound is for the instant the entry is classified; no bound is stated for how long sending the response takes after that.
- CountersAddUp: sums are stated while fewer than 2^64 requests have arrived, since each counter wraps on its own; the per-counter recount has no such bound.
- RecordUpstreamLatency: latency samples are below 2^64 milliseconds, as the cast in the source makes them.
- IncClientQuery: per-client and per-domain counts wrap as in release builds; debug builds would stop instead.
- HandleRequest: sending a response always succeeds; the source stops the request if it does not.
- Await: the environment is any sequence of machine steps; the body given lets time pass and callers rely on the contract alone.
- ParallelResolver.SelectAll: the race is the environment's completion order; dropping the losers' lookups is not modelled beyond their adding nothing.
- Sockets, message building, transport security, upstream urls, bootstrap lookups and HTTP downloads: only their outcomes appear, as arbitrary inputs.
- How addresses and label texts are written: `parses` says which strings are accepted as names, and a `Spelling` which label texts are ever printed; of it only this is relied on, that a label's text is not empty and escapes its own dots. Case folding is ASCII.
- QueryLogger.Log: the class offers an entry to all sinks without a break; offers of several callers interleaving are the subject of `OffersMatchCalls` and `LogPathConserves`, where a sink's order of entries is left open.
- The order of configured blocklists: list positions are given; that sorting by distinct names makes them deterministic is not modelled.
- Cache capacity and eviction policy: evictions are arbitrary.
- HandleLookupResult: a policy's own error says only that upstreams failed; the queried name that the source appends to it is left out.
- Overflow of instants and durations: instants are unbounded.
- The SQLite sink, console formatting, averages and percentages, the HTTP routes and the user interface: presentation and storage.
- `cache.enable` and `stats.enable`: the handler and the collector never read them.
- GetSnapshot: one atomic read; `LoadCounts` takes the three scalar loads apart, the four lists are each correct for the moment they are read at.
- A request without a question: the source stops it after counting the query and the client.
- The wall-clock fields of the statistics snapshot.
