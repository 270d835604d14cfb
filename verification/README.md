# Aegis WAF: a verified model of its stateful parts

Dafny models of the parts of the Aegis WAF that carry state, time or interleaving, with proofs about every run of
them: rate limiting, escalation, concurrent admission, ingress filtering, request sequences, threat intelligence,
and three codecs. `dafny verify dfyconfig.toml` checks the whole project.

Each stateful component has three layers. Specification functions say what one operation does to the component's
state. A class with the source's fields has a method per operation, and each method is proved to change the fields
exactly as its function says. Lemmas are then proved about the functions, over whole runs; they give limits, thresholds and
times as numbers, and describe inputs in terms of their own. Concurrent components
are transition systems whose moves are the source's atomic actions.

Time is a real number of seconds (whole seconds in the response engine and in threat intelligence, as in the
source). An operation takes the clock reading it uses. Readings that go backwards are handled the way `Instant`
handles them, by counting as no time; lemmas about runs say where they need the clock not to go back. Tokens and
scores are reals.

| file | component |
|---|---|
| Common.dfy | counters, clocks, sums over maps |
| TokenBucket.dfy, TieredLimiter.dfy, TieredCounters.dfy, TieredBursts.dfy | `RateLimitBucket` and the four-tier `RateLimiter`: what is bounded, conserved and attained |
| LocalLimiter.dfy, Eviction.dfy, LocalAdmissions.dfy | `DistributedRateLimiter`, what evicting entries changes, and what it can admit |
| Dominance.dfy | the race between the two kinds of bucket |
| ResponseEngine.dfy, EscalationRuns.dfy, EscalationAnswers.dfy | escalation records, levels and timed blocks, and what is answered |
| ConnectionTracker.dfy, HandshakeLimiter.dfy | admission under any interleaving of threads |
| IngressFilter.dfy, SynWindow.dfy, IngressCounters.dfy, IngressTable.dfy | packets and connections; SYN window, per-address counters, connection table |
| RequestSequence.dfy, Pipeline.dfy | transition index and anomaly score, and what the score can cause downstream |
| ThreatIntel.dfy | feed averages and their cache |
| PercentDecoding.dfy, CsvReport.dfy | percent decoding, printing of report rows |
| Framing.dfy, FramingText.dfy, FramingSoundness.dfy | the two header validators, the texts they read, and their agreement |

## What came out of the proofs

- Evicting idle entries from the local limiter cannot be observed for any limits, zero and one included, as long as
  no adaptive threshold moves them: a request is challenged exactly when the capacity of its key is zero. A threshold
  that moves the limit of an idle address does show (`ThresholdChangeShows`); `ReplacementUnnoticedIff` says when.
- Peeking at a bucket is invisible except before a refund and before bursting is allowed anew; the exact conditions
  are `PeekBeforeRefundIff` and `PeekBeforeBurstIff`.
- The refund after a session or endpoint denial is clamped to the plain capacity. It undoes the take exactly when
  the global bucket held no burst credit; otherwise the denied request costs all of that credit
  (`RefundUndoesTakeIff`).
- `ConnectionTracker::try_add` reaches its rollback branch with two overlapping calls, and a thread in that branch
  waits for a lock it holds (`OverlapReachesRollback`, `RollbackNeverEnds`). Without overlap the branch is
  unreachable.
- A handshake can be refused while every permit is free (`RefusedWithEveryPermitFree`); `RefusedIff` says when.
- Removing an untracked connection makes the per-address counter fall short of the table, and so does
  `register_connection` (`UntrackedRemovalUndercounts`, `RegistrationUndercounts`); the exact conditions are
  `RemoveKeepsCoveredIff` and `RegisterKeepsCoveredIff`.
- The blank line that ends a printed block looks like a row of one empty cell; `BlockFoundIff` says which blocks can be
  told from the text that follows.
- A feed line whose score is `nan` survives the clamping, so an answer lies in [0, 1] exactly when no contributing
  entry is NaN (`AnswerInUnitIff`).
- A path scored right after it was tracked scores at most 0.4. A request of another task in between can bring it to
  0.6 (`InterleavedScoreReached`), and nothing beyond that. The thresholds of the response engine are 0.6 and 0.85,
  both strict: in the pipeline the behavioural score never contributes a reason, and a timed block takes inspection
  findings of at least three different sizes (`TimedBlockNeedsThreeInspections`).
- `u8::from_str_radix` takes a plus sign, so `%+F` decodes to one byte. Splitting the input of the decoder is
  harmless exactly when the first piece does not end inside an escape (`SplitHarmlessIff`).
- The two header validators agree on what both look for exactly when every Content-Length value is UTF-8
  (`ValidatorsAgreeIff`).

## Model

| member | source | states |
|---|---|---|
| TokenBucket.RateLimitBucket.constructor | src/engine/rate_limiter.rs:50-63 | A new bucket is full to its plain capacity, may burst to five times that, and has counted nothing |
| TokenBucket.RateLimitBucket.Refill | src/engine/rate_limiter.rs:65-83 | The bucket becomes its refilled self: accrual since the last refill, up to the ceiling in force; no time, no change |
| TokenBucket.RateLimitBucket.TryConsume | src/engine/rate_limiter.rs:85-99 | Grants exactly when the refilled bucket holds the cost, then takes precisely that; a refusal takes nothing; counters saturate |
| TokenBucket.RateLimitBucket.AvailableTokens | src/engine/rate_limiter.rs:101-104 | Reads the level after refilling, which is its only effect |
| TokenBucket.RateLimitBucket.RefillBucket | src/engine/rate_limiter.rs:137-139 | Hands tokens back up to the plain capacity |
| TokenBucket.RateLimitBucket.ResetBurst | src/engine/rate_limiter.rs:106-111 | Forbids bursting and gives up the burst credit |
| TokenBucket.RateLimitBucket.EnableBurst | src/engine/rate_limiter.rs:113-115 | Allows bursting again and changes nothing else |
| TokenBucket.RefillComposes | src/engine/rate_limiter.rs:65-83 | Refilling at one moment and again later is the same as refilling once at the later moment |
| TokenBucket.PeekingAndFailingInvisible | src/engine/rate_limiter.rs:65-104 | Any peeks and refused takes can be dropped from a run without changing the outcome of any other operation, peeked levels included, as long as nothing is refunded and bursting is not allowed anew |
| TokenBucket.PeekBeforeRefundIff | src/engine/rate_limiter.rs:137-139 | A peek just before a refund leaves no trace if and only if the bucket may not burst, nothing has accrued, or everything fits the plain capacity |
| TokenBucket.PeekBeforeBurstIff | src/engine/rate_limiter.rs:106-115 | A peek just before bursting is allowed leaves no trace if and only if that changes no ceiling or what has accrued fits the plain capacity |
| TokenBucket.SpendingBound | src/engine/rate_limiter.rs:65-139 | In any run of takes, peeks, refunds and switches of bursting, the granted costs are at most the highest ceiling, plus the rate times the length of the run, plus the refunds |
| TokenBucket.BurstAfterIdle | src/engine/rate_limiter.rs:15-83 | A new bucket of n tokens a second that has stood idle for four seconds or more grants exactly 5 * n unit takes at one moment, and no further one |
| TokenBucket.NoBurstAfterReset | src/engine/rate_limiter.rs:106-111 | One that may not burst grants exactly n, however long it has stood idle |
| TokenBucket.CountersTell | src/engine/rate_limiter.rs:85-99 | After any run below saturation the counters are the grants, the refusals and the refusals since the last grant |
| TokenBucket.AverageApproaches | src/engine/rate_limiter.rs:128-131 | A granted take brings the traffic average an eighth closer to its cost, and nothing else moves it |
| TieredLimiter.RateLimiter.CheckRateAt | src/engine/rate_limiter.rs:475-539 | The four tiers are charged in order, global first, stopping at the first refusal, with the refund for session and endpoint denials |
| TieredLimiter.CallDraws | src/engine/rate_limiter.rs:475-539 | An allowed call costs every tier it draws on one token; a refused call adds tokens to none, in spite of the refund |
| TieredLimiter.RefundUndoesTakeIff | src/engine/rate_limiter.rs:137-139 | After a denial below the address tier the global bucket holds what it held before cut to the plain capacity; unchanged if and only if it held no burst credit |
| TieredLimiter.QueuedOnlyIfTiny | src/engine/rate_limiter.rs:673-680 | No call is challenged; one is queued if and only if the global bucket holds no whole token but more than a fifth of default_rps, which must then be below five |
| TieredLimiter.WindowAdmissionBound | src/engine/rate_limiter.rs:475-539 | Between any two calls of any run, allowed calls of everyone, of one address, one session or one endpoint number at most 5 * limit + limit * seconds |
| TieredBursts.CallTakesOneEach | src/engine/rate_limiter.rs:475-539 | A call is allowed if and only if every bucket it draws on holds a token, and then takes one of each |
| TieredBursts.BurstVerdict | src/engine/rate_limiter.rs:475-539 | A limiter rested for five seconds allows as many calls of one kind at one moment as five times the lowest of their limits, and not one more |
| TieredBursts.BurstAttained | src/engine/rate_limiter.rs:475-539 | The window bound is attained: of such a burst exactly five times the lowest limit is allowed, for every tier |
| TieredBursts.AddressBurst | src/engine/rate_limiter.rs:475-539 | For one address: exactly 5 * per_ip_limit calls are allowed |
| TieredCounters.ReachDecides | src/engine/rate_limiter.rs:475-539 | Which buckets a call charges, and the verdict, are decided by the first tier that refuses it |
| TieredCounters.CountersConserved | src/engine/rate_limiter.rs:85-99 | After every prefix of every run below saturation: calls = global allowed + dropped, global allowed = address allowed + dropped, and so on down, counting calls that have nothing to present at a tier |
| TieredCounters.GlobalAdmissionsAccountedFor | src/engine/rate_limiter.rs:475-539 | Every call the global bucket let in was allowed in the end or counted as dropped by exactly one lower tier |
| LocalLimiter.DistributedRateLimiter.CheckBucket | src/engine/rate_limiter.rs:345-376 | Creates the entry if missing, refills up to capacity, takes the cost if it is there, and moves the traffic average either way |
| LocalLimiter.DistributedRateLimiter.CheckGate | src/engine/rate_limiter.rs:412-423 | A refused key yields Queued, Challenged or Dropped from the entry just charged |
| LocalLimiter.DistributedRateLimiter.SetAdaptiveThreshold | src/engine/rate_limiter.rs:267-272 | Records the threshold of one key and touches no entry |
| LocalLimiter.DistributedRateLimiter.MaybeCleanup | src/engine/rate_limiter.rs:425-437 | At most every 30 seconds, drops exactly the entries idle for 180 seconds |
| LocalLimiter.DistributedRateLimiter.CheckRateAt | src/engine/rate_limiter.rs:203-242 | Address, session, endpoint and global keys are charged in order up to the first refusal; then cleanup |
| LocalLimiter.DegradationExact | src/engine/rate_limiter.rs:412-423 | For an entry reached in a run, the refusal verdict depends on tokens and capacity alone, never on the traffic average |
| LocalLimiter.GateVerdict | src/engine/rate_limiter.rs:378-423 | A key with a whole token allows; it is challenged exactly when its capacity is zero, and queued exactly when it holds a fraction of a token above a fifth of its capacity |
| LocalLimiter.ThresholdTightens | src/engine/rate_limiter.rs:378-410 | A threshold lowers the limit of an address by half of itself, to no less than half the limit or a tenth of default_rps; not without adaptive learning |
| Eviction.EvictionUnobservable | src/engine/rate_limiter.rs:203-242 | Every call of any run is answered as by a limiter that never evicts, for all limits, as long as no threshold set in the run moves the limits of its key |
| Eviction.SteadyWithoutLearning | src/engine/rate_limiter.rs:378-410 | No threshold moves a limit without adaptive learning, nor ever those of sessions, endpoints and the server |
| Eviction.ReplacementUnnoticedIff | src/engine/rate_limiter.rs:345-376 | Replacing an idle entry by a fresh one goes unnoticed by every run of requests if and only if the capacities are equal or both lie strictly between zero and one |
| Eviction.ThresholdChangeShows | src/engine/rate_limiter.rs:267-272 | A run of four events in which a threshold is set while the entry stands idle: the evicting limiter queues the call that the other allows |
| Eviction.CleanupWhenDue | src/engine/rate_limiter.rs:425-437 | A call cleans up if and only if the last cleanup is 30 seconds ago or more, and then leaves no entry idle for 180 |
| Eviction.IdleEntriesGo | src/engine/rate_limiter.rs:425-437 | In every run no entry idle for 210 seconds is in the cache after a call |
| Eviction.RecentEntriesStay | src/engine/rate_limiter.rs:425-437 | In every run an entry stays for at least 180 seconds after its last use |
| Eviction.DropsAreApart | src/engine/rate_limiter.rs:425-437 | In every run, events that drop entries are at least 30 seconds apart |
| LocalAdmissions.KeyAdmissionBound | src/engine/rate_limiter.rs:203-242 | Between any two events of any run, evictions and threshold changes included, calls allowed under one key number at most limit + limit * seconds, for the highest limit the key resolves to |
| LocalAdmissions.ThresholdsOnlyTighten | src/engine/rate_limiter.rs:378-410 | Whatever thresholds are set, the bound of the limit without a threshold holds |
| LocalAdmissions.TierAdmissionBound | src/engine/rate_limiter.rs:203-242 | The same bound on the calls themselves: of all calls, of one address, one session and one endpoint at most the configured limit plus that many a second are allowed, an address having at least a tenth of default_rps |
| LocalAdmissions.NewLimiterAllowsLimit | src/engine/rate_limiter.rs:203-242 | The bound is attained: a new limiter allows as many calls of one kind at one moment as the lowest of their configured limits, and not one more |
| LocalAdmissions.RefusalSparesTheRest | src/engine/rate_limiter.rs:211-237 | A call refused for its address charges no other key; refused for its session, neither endpoint nor server; refused for its endpoint, not the server |
| Dominance.RaceInvariant | src/engine/rate_limiter.rs:65-99 | From level tokens the bursting bucket admits no fewer; from less than one token behind it admits at most one fewer, which its earlier lead covers |
| Dominance.BurstingDominates | src/engine/rate_limiter.rs:345-376 | For the same session or endpoint limit and the same arrivals, the bursting bucket has admitted at least as many requests after every prefix |
| ResponseEngine.Engine.constructor | src/engine/response_engine.rs:93-104 | A new engine has no records and no recent decisions |
| ResponseEngine.Engine.NoteReasons | src/engine/response_engine.rs:246-250 | Adds each reason not yet recorded, in order |
| ResponseEngine.Engine.ApplyEscalation | src/engine/response_engine.rs:214-274 | A live block answers; otherwise the record is noted against, a stale window cleared, and the count of violations sets level, block and answer |
| ResponseEngine.Engine.ScoreSignals | src/engine/response_engine.rs:106-153 | The action proposed and the reasons in order of the five signals |
| ResponseEngine.Engine.EvaluateThreat | src/engine/response_engine.rs:106-212 | Answer and new records as specified, capped by the maximum, and the log keeps exactly the last 1000 decisions |
| ResponseEngine.Engine.EscalateResponse | src/engine/response_engine.rs:276-355 | A live block answers; otherwise the level goes up by one and the fourth step blocks for an hour |
| ResponseEngine.Engine.ResetEscalation | src/engine/response_engine.rs:392-394 | Forgets the address and no other |
| EscalationRuns.ProposalMonotone | src/engine/response_engine.rs:106-153 | Before escalation, stronger signals never propose a weaker action |
| EscalationRuns.AllowedIffNoReason | src/engine/response_engine.rs:106-153 | A request is proposed for plain passage exactly when no signal gave a reason |
| EscalationAnswers.ProposalIsStrongest | src/engine/response_engine.rs:106-153 | The proposal is the strongest action any one signal calls for, with the thresholds as numbers |
| EscalationAnswers.ReasonsHold | src/engine/response_engine.rs:106-153 | The reasons given are exactly those that hold of the signals |
| EscalationRuns.EscalatedKeepsInv | src/engine/response_engine.rs:214-274 | Evaluation keeps the record invariant, from any proposal with at most five reasons |
| EscalationRuns.SteppedUpKeepsInv | src/engine/response_engine.rs:276-319 | Escalation keeps the record invariant and raises the level by exactly one, so the 8-bit counter never wraps |
| EscalationRuns.FirstEvaluationAfterBlock | src/engine/response_engine.rs:234-258 | The first evaluation after a block ran out empties the record and leaves the proposal un-escalated |
| EscalationRuns.RunKeepsInv | src/engine/response_engine.rs:214-319 | In every mix of evaluations, escalations and resets: level at most 4, level 4 exactly while a block is recorded, block at least an hour past the window's start, at most 13 distinct violations |
| EscalationRuns.BlockHolds | src/engine/response_engine.rs:234-241 | A recorded block answers every call about its address until it expires or is reset, and the record stays as it is |
| EscalationRuns.FirstEvaluationInRun | src/engine/response_engine.rs:234-258 | In every run the first evaluation after a recorded block ran out, with any escalations in between, wipes the record and answers the capped proposal, unless an escalation has blocked the address anew |
| EscalationAnswers.EvaluationRecords | src/engine/response_engine.rs:214-274 | In every run, an evaluation of an address that is not blocked drops a window older than 300 seconds, otherwise adds exactly the reasons that hold; 3, 6 and 9 violations record levels 2, 3 and 4, and nine a block of 3600 seconds |
| EscalationAnswers.EvaluationAnswers | src/engine/response_engine.rs:106-212 | It answers Block at nine violations, at least RateLimit from six, at least Challenge from three and the proposal below, all capped by the maximum |
| EscalationAnswers.NineBlockForAnHour | src/engine/response_engine.rs:255-264 | Nine violations after an evaluation block every call about the address for 3600 seconds, short of a reset |
| EscalationAnswers.EscalationAnswers | src/engine/response_engine.rs:276-319 | In every run an escalation of an address that is not blocked takes the next step of Log, Challenge, RateLimit, Block, from the bottom after an expired block; the fourth blocks for 3600 seconds |
| EscalationAnswers.FourEscalations | src/engine/response_engine.rs:276-319 | Four escalations in a row of a new address answer Log, Challenge, RateLimit and Block |
| EscalationAnswers.ResponsesDiffer | src/engine/response_engine.rs:161-190 | Status, retry time and redirect address tell the action |
| EscalationRuns.TimedBlockEarned | src/engine/response_engine.rs:245-264 | When an evaluation sets a timed block, at least nine pairwise distinct reasons were noted against that address in the last 300 seconds |
| EscalationRuns.DpiReasonsCount | src/engine/response_engine.rs:106-153 | Of distinct reasons all but eight, or all but six without anomalies, are inspection findings |
| EscalationRuns.TimedBlockNeedsInspection | src/engine/response_engine.rs:245-264 | At least one of those reasons is an inspection finding |
| EscalationRuns.TimedBlockNeedsTwoRequests | src/engine/response_engine.rs:245-264 | For any single evaluation, the block rests on some recent reason that evaluation did not give |
| Pipeline.PipelineNeverReportsAnomalies | src/io/network.rs:480-484 | However the tasks of other requests interleave, the score passed on is at most 0.6 and never gives the response engine a reason |
| Pipeline.PipelineReachesThreshold | src/io/network.rs:480-484 | The score 0.6, the lower threshold itself, is reached |
| Pipeline.TimedBlockNeedsThreeInspections | src/io/network.rs:480-513 | In the pipeline, under any interleaving of requests, a timed block rests on inspection findings of at least three different sizes |
| ConnectionTracker.MoveKeepsInv | src/io/network.rs:75-116 | Every atomic action of every thread keeps the table, counter and lock consistent |
| ConnectionTracker.CountTracksTable | src/io/network.rs:75-116 | In every interleaving: with the lock free the counter is the table's size and within the maximum; it is never more than one above it, and then only inside a rollback |
| ConnectionTracker.RollbackIff | src/io/network.rs:96-106 | The rollback branch is taken exactly when the entry just inserted overfills the table |
| ConnectionTracker.NoRollbackWithoutOverlap | src/io/network.rs:100-106 | If no call to try_add begins during another, no thread is ever in the rollback branch and the counter never exceeds the maximum |
| ConnectionTracker.OverlapReachesRollback | src/io/network.rs:75-108 | Two overlapping calls with room for one connection reach the rollback branch |
| ConnectionTracker.RollbackNeverEnds | src/io/network.rs:100-116 | From a thread in the rollback branch, table, counter and lock stay the same in every continuation |
| ConnectionTracker.SoloAddCall | src/io/network.rs:75-108 | Run without interference, the atomic actions of an add (refused, of a tuple present or of a new one) give the table, the counter and the answer of the whole operation |
| ConnectionTracker.SoloRemoveCall | src/io/network.rs:110-116 | Likewise those of a removal, of a tuple present or absent |
| ConnectionTracker.FillsToMaximum | src/io/network.rs:75-108 | Of different tuples added one after the other exactly the first max_connections get in |
| ConnectionTracker.ConnectionTable.TryAdd | src/io/network.rs:75-108 | Refuses exactly when the table is full, otherwise the tuple is in the table; nothing else changes |
| ConnectionTracker.ConnectionTable.Remove | src/io/network.rs:110-116 | The tuple is gone and the counter still matches the table |
| HandshakeLimiter.MoveKeepsInv | src/io/quic_handler.rs:52-65 | Every atomic add, undo and release keeps counter = holders + pending undos and holders within the maximum |
| HandshakeLimiter.PermitsConserved | src/io/quic_handler.rs:52-65 | In every interleaving of fewer than 2^64 tasks the counter is the holders plus the pending undos, holders never exceed the maximum, and no subtraction meets zero |
| HandshakeLimiter.RefusedIff | src/io/quic_handler.rs:52-61 | A request is refused exactly when holders and pending undos together reach the maximum |
| HandshakeLimiter.RefusedWithEveryPermitFree | src/io/quic_handler.rs:52-65 | A run in which a task is refused although nobody holds a permit |
| HandshakeLimiter.SoloCalls | src/io/quic_handler.rs:52-65 | Run without interference, the atomic steps of a request, granted or refused, and of a release give the counter and the answer of the whole operation |
| HandshakeLimiter.GrantsToMaximum | src/io/quic_handler.rs:52-61 | Of requests made one after the other exactly the first max_concurrent are granted |
| HandshakeLimiter.HandshakePermits.TryAcquire | src/io/quic_handler.rs:52-61 | Grants exactly below the maximum, and then the counter is one up; a refusal leaves it as it was |
| HandshakeLimiter.HandshakePermits.Release | src/io/quic_handler.rs:63-65 | Takes one off the counter |
| IngressFilter.IngressGate.MaybeCleanup | src/engine/ingress_filter.rs:415-433 | At most every 60 seconds, drops exactly the connections idle for 300 seconds |
| IngressFilter.IngressGate.ValidatePacket | src/engine/ingress_filter.rs:150-199 | Size, SYN window, flags and connection limit are checked in order, with the window updated before the verdict |
| IngressFilter.IngressGate.IsConnectionAllowed | src/engine/ingress_filter.rs:219-279 | A new connection is entered and counted, a known one refreshed and its TCP state moved, a blocked source refused |
| IngressFilter.IngressGate.RegisterConnection | src/engine/ingress_filter.rs:281-311 | A new connection is entered without being counted |
| IngressFilter.IngressGate.RemoveConnection | src/engine/ingress_filter.rs:313-329 | The connection leaves the table and its address's counter goes down, not below zero |
| IngressFilter.PureSynOpens | src/engine/ingress_filter.rs:155-157 | The packets the flood check counts are exactly the TCP segments without payload whose SYN bit is set and whose ACK bit is not |
| IngressFilter.FlagsValidIff | src/engine/ingress_filter.rs:375-389 | The flag combinations refused, by their control bits |
| SynWindow.WindowStep | src/engine/ingress_filter.rs:155-176 | Exactly the pure SYNs of a source move its window, blocked ones included, and the verdict follows the count |
| SynWindow.SynSlidingBound | src/engine/ingress_filter.rs:155-176 | Between any two operations L seconds apart at most 100 * (ceil(L / 5) + 1) segments with SYN and without ACK of one source pass, so at most 200 in 5 seconds |
| SynWindow.SynRefusedIff | src/engine/ingress_filter.rs:155-176 | In every run, within five seconds of the SYN that opened a window, a packet of the source is answered with the flood verdict if and only if it is a pure SYN and the hundred-and-first or later |
| SynWindow.ValidationVerdict | src/engine/ingress_filter.rs:150-199 | The verdict on a packet, check by check with the limits as numbers; a packet that is not allowed leaves the table as it was |
| SynWindow.ConnectionVerdict | src/engine/ingress_filter.rs:219-223 | A packet of a blocked source is refused without a trace, and no other |
| IngressCounters.RemoveKeepsCoveredIff | src/engine/ingress_filter.rs:313-329 | Removal keeps every counter at or above its live entries if and only if the connection was tracked, or its address has a count to spare or no entries |
| IngressCounters.RegisterKeepsCoveredIff | src/engine/ingress_filter.rs:281-311 | Registration keeps them so if and only if the connection was tracked already or its address has a count to spare |
| IngressCounters.UntrackedRemovalUndercounts | src/engine/ingress_filter.rs:313-329 | A case in which removing an untracked connection leaves a live entry uncounted |
| IngressCounters.RegistrationUndercounts | src/engine/ingress_filter.rs:281-311 | Registering a connection with the empty filter leaves a live entry uncounted |
| IngressCounters.CountersCoverTable | src/engine/ingress_filter.rs:219-329 | In every run that removes only tracked connections and registers none, each counter covers its live entries |
| IngressCounters.CountersExactUntilExpiry | src/engine/ingress_filter.rs:219-329 | In such a run the counters are exact until a cleanup expires an entry |
| IngressCounters.ConnectionLimitHolds | src/engine/ingress_filter.rs:184-194 | If each connection follows the validation of its packet, no source ever has more than 1000 live entries |
| IngressTable.TcpStateAdvances | src/engine/ingress_filter.rs:391-413 | In every run a connection that stays in the table never goes back to an earlier stage, so a closed one stays closed |
| IngressTable.NoPassiveClose | src/engine/ingress_filter.rs:391-413 | No connection is ever in one of the two states of a passive close, so one arm of the transition table is dead |
| IngressTable.TcpWalk | src/engine/ingress_filter.rs:391-413 | Every transition of the TCP state, by the control bits of the segment |
| IngressTable.TrafficCounted | src/engine/ingress_filter.rs:244-275 | In every run below saturation the counters of a connection that stays are the packets and bytes seen since |
| IngressTable.CleanupWhenDue | src/engine/ingress_filter.rs:415-433 | An allowed packet cleans up if and only if the last cleanup is 60 seconds ago or more, and then leaves no connection idle for 300 |
| IngressTable.IdleConnectionsGo | src/engine/ingress_filter.rs:415-433 | In every run no connection idle for 360 seconds is in the table after a packet was allowed |
| IngressTable.RecentConnectionsStay | src/engine/ingress_filter.rs:415-433 | In every run a connection that is not removed stays for at least 300 seconds after its last packet |
| IngressTable.DropsAreApart | src/engine/ingress_filter.rs:415-433 | In every run, operations that expire connections are at least 60 seconds apart |
| RequestSequence.BehavioralAnalyzer.TrackRequestSequence | src/engine/behavioral_analyzer.rs:233-259 | Counts the step from the last path, logs it, and appends the path, with both logs cut to their limits |
| RequestSequence.BehavioralAnalyzer.CheckPatternDeviation | src/engine/behavioral_analyzer.rs:261-305 | The score is the mean of repetition and novelty as defined on the kept paths and the index |
| RequestSequence.IndexAgreesWithHistory | src/engine/behavioral_analyzer.rs:233-259 | In every run the index counts adjacent pairs of the whole request history, the sequence is its last 1000 paths, and the log keeps its limit |
| RequestSequence.LogIsSuffix | src/engine/behavioral_analyzer.rs:236-253 | In every run the log is the last part of the steps taken, each with its count at the time: all up to 10000, then cut to 9001 and growing again |
| RequestSequence.RepetitionInRun | src/engine/behavioral_analyzer.rs:265-280 | In every run a path scores 0.3 for five to seven of the last ten requests, 0.7 from eight on, otherwise nothing, and nothing before the sixth request |
| RequestSequence.NoveltyInRun | src/engine/behavioral_analyzer.rs:284-295 | In every run a path scores 0.5 for novelty if and only if the last path has never been followed by it, although some step was taken |
| RequestSequence.ScoreIsMean | src/engine/behavioral_analyzer.rs:298-305 | The overall score is the mean of the components present |
| RequestSequence.AtMostEveryOther | src/engine/behavioral_analyzer.rs:265-277 | A path that never follows itself fills at most every other place |
| RequestSequence.JustTrackedScore | src/engine/behavioral_analyzer.rs:261-305 | Right after tracking a path its top repetition score and novelty exclude each other, and it scores at most 0.4 |
| RequestSequence.ScoreInAnyInterleaving | src/engine/behavioral_analyzer.rs:261-305 | Whatever requests are tracked before and between the two readings of the sequence, any path scores at most 0.6, and above 0.4 exactly when the top repetition score meets the novelty score |
| RequestSequence.InterleavedScoreReached | src/engine/behavioral_analyzer.rs:233-305 | Nine requests for one path score 0.35; one request for another path before the scoring makes it 0.6 |
| ThreatIntel.ThreatIntelligence.AddFeed | src/engine/threat_intel.rs:61-83 | Adds an enabled empty feed unless the name is taken, and says which |
| ThreatIntel.ThreatIntelligence.RemoveFeed | src/engine/threat_intel.rs:85-94 | The feed is gone; the answer says whether it was there; the cache is untouched |
| ThreatIntel.ThreatIntelligence.UpdateFeeds | src/engine/threat_intel.rs:96-124 | Exactly the enabled feeds whose fetch succeeded take the fetched address and domain entries, and the count of them is returned |
| ThreatIntel.ThreatIntelligence.SumContributions | src/engine/threat_intel.rs:194-208 | Over the feeds in any order: the total, the names and the number of the enabled feeds listing the address |
| ThreatIntel.ThreatIntelligence.CheckIp | src/engine/threat_intel.rs:181-239 | A live cached answer, or else the present average, which is cached for an hour; nothing is cached for an unlisted address |
| ThreatIntel.ThreatIntelligence.ClearCache | src/engine/threat_intel.rs:398-400 | Forgets every cached answer |
| ThreatIntel.TotalWithout | src/engine/threat_intel.rs:199-208 | The total does not depend on the order in which feeds are visited |
| ThreatIntel.AnswerStaleness | src/engine/threat_intel.rs:181-239 | Every answer is the average over the feeds as they stand at the lookup or stood at a lookup less than 3600 seconds before, with no clearing between |
| ThreatIntel.AnswerCurrentSinceEmpty | src/engine/threat_intel.rs:181-239 | If no feed was touched since the cache was last empty, the answer is the present average |
| ThreatIntel.AnswerHoldsForAnHour | src/engine/threat_intel.rs:181-239 | A computed answer is given for 3600 seconds, whatever becomes of the feeds, unless the cache is cleared |
| ThreatIntel.AverageIsMean | src/engine/threat_intel.rs:194-215 | An answer times the number of enabled feeds that list the address is the sum of their scores, and its sources are their names |
| ThreatIntel.OneFeedAnswers | src/engine/threat_intel.rs:194-215 | A single listing feed answers with its own score, NaN included |
| ThreatIntel.UpdateTakesFetched | src/engine/threat_intel.rs:96-124 | After an update an enabled fetched feed has the fetched entries and the new time, and every other feed is as it was |
| ThreatIntel.ScoreAsWritten | src/engine/threat_intel.rs:437-440 | A score between 0 and 1 is taken as written, one outside is cut off, and an unreadable one counts as 0.8 |
| ThreatIntel.ListedIff | src/engine/threat_intel.rs:425-446 | An address is listed if and only if a line is about it |
| ThreatIntel.LastLineCounts | src/engine/threat_intel.rs:425-446 | The last line about an address counts |
| ThreatIntel.ParsedEntries | src/engine/threat_intel.rs:425-446 | A parsed entry is in [0, 1] or NaN, and NaN only from a line that says so |
| ThreatIntel.AnswerInUnitIff | src/engine/threat_intel.rs:194-215 | In every run of feed changes an answer lies in [0, 1] if and only if no entry it was averaged from is NaN |
| ThreatIntel.NaNLineEscapes | src/engine/threat_intel.rs:437-440 | A feed whose last line for an address is NaN makes that address's average leave [0, 1] |
| PercentDecoding.PercentDecode | src/engine/dpi_engine.rs:709-734 | The loop computes the decoding of the input read token by token |
| PercentDecoding.DecodeInvertsEncoding | src/engine/dpi_engine.rs:709-734 | Decoding inverts every encoder that escapes '%' and '+' and writes each other byte as itself or as %XX in either case |
| PercentDecoding.DecodeInvertsWriting | src/engine/dpi_engine.rs:709-734 | Decoding inverts every encoder that writes digits from the tables 0123456789abcdef and 0123456789ABCDEF, and a space as plus sign or not |
| PercentDecoding.PlusDigitDecodes | src/engine/dpi_engine.rs:714-724 | A percent sign, a plus sign and a digit decode to the digit |
| PercentDecoding.LiteralTextStays | src/engine/dpi_engine.rs:709-734 | Text without plus signs and without a percent sign before two digits is left as it is |
| PercentDecoding.DecodeConcat | src/engine/dpi_engine.rs:709-734 | Decoding is piecewise after a piece that does not end inside an escape |
| PercentDecoding.SplitHarmlessIff | src/engine/dpi_engine.rs:714-724 | Decoding is piecewise for every continuation if and only if the first piece does not end inside an escape |
| PercentDecoding.DecodeLength | src/engine/dpi_engine.rs:709-734 | The output is at most as long as the input and at least a third as long |
| CsvReport.CollectColumns | src/analytics/reporter.rs:770-777 | Every key of every row exactly once, before sorting |
| CsvReport.PrintRow | src/analytics/reporter.rs:789-795 | One line: the escaped cells of the columns in order, empty where the row has none |
| CsvReport.PrintBlock | src/analytics/reporter.rs:780-797 | The header line, one line a row and the blank line at the end |
| CsvReport.ReadCellInverts | src/analytics/reporter.rs:804-810 | An escaped cell followed by a separator or line feed is read back whole |
| CsvReport.EscapeValueIsEscape | src/analytics/reporter.rs:812-820 | Every kind of value is printed as its text escaped, numbers and booleans included |
| CsvReport.BlockRoundTrip | src/analytics/reporter.rs:769-798 | Reading a whole printed block with at least one column gives back the column names and all cell texts, for arbitrary strings, and then the blank line |
| CsvReport.BlockFoundIff | src/analytics/reporter.rs:769-798 | In a text that goes on, the block up to its blank line is read back if and only if it has two columns or more, or no row whose one cell is empty |
| CsvReport.BlankRowEndsBlock | src/analytics/reporter.rs:789-797 | Cut at such a row, a block is the beginning of the very same text, so no reader can tell |
| CsvReport.PrintingIsInjective | src/analytics/reporter.rs:769-798 | Blocks that print alike have the same columns and cell texts |
| CsvReport.QuotedIff | src/analytics/reporter.rs:804-810 | A cell is quoted if and only if it has a comma, a quote or a line break |
| CsvReport.ValuesPrintApart | src/analytics/reporter.rs:812-820 | Distinct values of one kind print apart, and true, false and null print like the texts true, false and the empty one only |
| Framing.ValidResult.AddError | src/engine/protocol_validator.rs:90-107 | Appends the entry and keeps: passed, severity below Reject and absence of Reject entries are one and the same |
| Framing.Validator.ValidateEachHeader | src/engine/protocol_validator.rs:257-272 | Each invalid name and value adds its rejection, in order |
| Framing.Validator.ValidateContentLength | src/engine/protocol_validator.rs:400-465 | Entries and reported length for one or several Content-Length headers |
| Framing.Validator.ValidateTokens | src/engine/protocol_validator.rs:496-517 | Entries for each listed coding, and whether one is chunked |
| Framing.Validator.ValidateTransferEncoding | src/engine/protocol_validator.rs:467-532 | Entries for a Transfer-Encoding, including its coexistence with a Content-Length |
| Framing.Validator.ValidateParsedHeaders | src/engine/protocol_validator.rs:242-280 | All header checks of a parsed request, after whatever the start line added |
| Framing.Validator.ValidateListed | src/engine/protocol_validator.rs:588-631 | One header in the loop of validate_headers |
| Framing.Validator.ValidateHeaders | src/engine/protocol_validator.rs:569-642 | All entries and the length of the header-list validator |
| FramingText.SameNameIff | src/engine/protocol_validator.rs:407 | Names are the same if and only if they agree letter by letter up to the case of A to Z |
| FramingText.ValuesNamed | src/engine/protocol_validator.rs:405-409 | The values collected under a name are those of the headers so named |
| FramingText.HeaderNameIff | src/engine/protocol_validator.rs:674-685 | Which header names are valid, by code points |
| FramingText.HeaderValueIff | src/engine/protocol_validator.rs:687-702 | Which header values are valid, by bytes |
| FramingText.ParseInverts | src/engine/protocol_validator.rs:445-448 | A number of 64 bits is read from its decimal text, with zeros or a plus sign before it or not |
| FramingText.ParsedText | src/engine/protocol_validator.rs:445-448 | And from no other text |
| FramingText.TrimInverts | src/engine/protocol_validator.rs:433-434 | Trimming takes off exactly the white space around a text |
| FramingText.SignedIff | src/engine/protocol_validator.rs:450 | A value counts as signed if and only if its text begins with a sign |
| FramingText.AllSameIff | src/engine/protocol_validator.rs:411-415 | Values agree if and only if their texts do, a value that is no text counting as empty |
| FramingText.TokensInvert | src/engine/protocol_validator.rs:494 | Codings listed with commas and white space are read back one by one |
| FramingSoundness.RequestRejects | src/engine/protocol_validator.rs:242-280 | For each kind of finding, exactly when the checks of a parsed request reject with it |
| FramingSoundness.RequestWarns | src/engine/protocol_validator.rs:242-280 | Every warning and every malformed list of codings, exactly |
| FramingSoundness.ChunkedIff | src/engine/protocol_validator.rs:496-502 | A request is reported chunked if and only if its first Transfer-Encoding lists that coding |
| FramingSoundness.PassedCarriesOneFraming | src/engine/protocol_validator.rs:467-492 | A passed request never carries one header named Content-Length and one named Transfer-Encoding, under any capitalisation |
| FramingSoundness.ReportedLengthIsEveryLength | src/engine/protocol_validator.rs:400-448 | A reported content length is the value of every header named Content-Length, under any capitalisation |
| FramingSoundness.DecimalLengthReported | src/engine/protocol_validator.rs:400-465 | A single Content-Length that is a decimal number of 64 bits, with white space around it or not, is reported as that number and not rejected for it |
| FramingSoundness.HeaderListPassesIff | src/engine/protocol_validator.rs:569-642 | validate_headers passes if and only if there are at most 128 headers, all well-formed, at most one length, a number if it is text, and not both framing headers |
| FramingSoundness.ValidatorsAgreeIff | src/engine/protocol_validator.rs:569-642 | After validate_headers passed, the parsed-request check rejects nothing both look for if and only if the value of every header named Content-Length, under any capitalisation, is UTF-8, and then both report the same length |

## Left out

- Concurrency of the rate limiters, the response engine, the ingress filter, the analyzer and the threat-intelligence cache: their methods are modelled as atomic, although the source takes several locks in turn.
- One clock reading a call: the limiters of the source read the clock once per bucket, threat intelligence once more when it caches.
- Floating-point rounding: tokens, averages and scores are reals; only NaN and the infinities of feed scores are kept apart. Where a score meets a threshold exactly, in Pipeline.PipelineReachesThreshold, single precision agrees: the mean of 0.7 and 0.5 rounds to the number 0.6 rounds to.
- ConnectionTracker.CountTracksTable: does not model the wrap of the connection counter at 2^64, which takes that many entries.
- TieredCounters.CountersConserved: stops at 2^64 - 1 calls, where the saturating counters would part ways.
- Eviction.EvictionUnobservable: covers check_rate and set_adaptive_threshold; is_rate_limited and get_bucket read stale tokens and are not covered.
- check_rate_with_scope, refill_bucket by scope, reset and classify_burst of the limiters, and set_adaptive_threshold of the tiered one.
- Progress of ConnectionTracker beyond the rollback branch, and fairness of its lock.
- IngressFilter.IngressGate.IsConnectionAllowed: takes the blocked sources as a set of addresses, where the source matches address ranges.
- Start line, host and slow-request checks of ProtocolValidator: they only add entries, which the result may already hold; the HTTP parser, UTF-8 decoding and Unicode lower-casing are parameters or left out.
- ResponseEngine.Engine.EvaluateThreat: does not model incident identifiers, pages and response headers, which are fixed text around the modelled decision.
- ResponseEngine.Engine.EscalateResponse: likewise, and its reason text, which only names the level, is left empty.
- Baselines, temporal anomalies and device fingerprints of BehavioralAnalyzer; check_domain and generated rules of ThreatIntelligence.
- CsvReport.PrintBlock: takes the columns in any order; the sort by the source is a library call and no property depends on it. The preamble, section headings and field lists of a report are not part of this model.
- JSON texts of numbers and nested values, which come from a library: a number's text is taken to have no comma, quote or line break.
- TLS, QUIC streams, HTTP serving, signals, files, the dashboard, the command line, secrets and cryptography, signature lists and bot detection.
