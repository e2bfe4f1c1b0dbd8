# A model of the DistribAI coordination core

DistribAI trains models on volunteer machines. Its Python control plane decides which
gradients to believe, how the outer optimizer moves, which node gets which task, how fast
clients may call, who may refresh a token and how credits flow. This project models those
decisions in Dafny and proves what the code promises about them, over all inputs and over
whole runs. `dafny verify dfyconfig.toml` checks everything.

Floats are exact reals, clocks are arguments that never run backwards, random codes and ids
are fresh arguments. Where the original updates fields in place, a class does so here, and
each of its methods is proved equal to a function on values; the lemmas below are about
those functions and about runs of them.

| module | what it models |
|---|---|
| `Sums` | finite sums, Cauchy-Schwarz, Jensen over vectors, sorting, the median |
| `GradientCodec` | nested JSON gradients, flattened and unflattened |
| `RobustAggregation` | the outlier filter and the sample-weighted mean |
| `GradientAggregation` | the whole aggregation of a set of node reports |
| `DiLoCo` | the outer step: submissions, layerwise average, Nesterov update |
| `DiLoCoProtocol`, `DiLoCoRuns` | its interleavings, aggregations split at their two lock sections |
| `DiLoCoAverages` | what a committed average is the average of |
| `DiLoCoLosses` | which submissions no round averages, and why |
| `Scheduler` | one pass of the greedy scheduler |
| `RateLimiter` | token buckets and the eviction of idle ones |
| `SseBudget`, `AdminSse` | the byte throttle of an event stream, the counter of open streams |
| `PercentCoding`, `JoinLink` | percent-encoding and the join link |
| `GrpoCoordinator` | rounds of group-normalised advantages |
| `JobQueue` | the job queue |
| `OAuthProvider` | authorization codes, access tokens and refresh tokens |
| `CreditTransfers`, `CreditMultipliers` | the hourly transfer limit, the daily earning cap |
| `Options` | a value that may be absent |

## Where the code and its promises part

- A payload entry survives flattening and unflattening exactly when all its leaves are
  numbers. A Boolean leaf takes a slot in the shape and none in the vector, so it shifts
  its neighbours: `[true, 1.0]` comes back as `[1.0, 0.0]`
  (`GradientCodec.RoundTripIffNumeric`, `GradientCodec.StrayLeafShifts`).
- The guard `len(vectors) > 3` in the outlier filter changes nothing: with three vectors or
  fewer none is ever beyond the threshold (`RobustAggregation.FewAreNeverFar`).
- That a submission is averaged by exactly one round unless its worker overwrote it or a reset
  dropped it holds in every run under a filter exactly when the filter keeps every well-shaped
  snapshot whole (`DiLoCoLosses.AveragedOnceIff`), as without a filter. A filter that drops
  somebody leaves that submission taken by a round but in no average
  (`DiLoCoLosses.DroppingRun`).
- Taken by exactly one round it is whenever no filter spoils a snapshot
  (`DiLoCoLosses.TakenOnce`). An aggregation gives all its submissions up exactly when the
  filter keeps nothing, or something without a layer or in a wrong shape
  (`DiLoCoLosses.AverageOutcome`, `DiLoCoLosses.GivesUpIff`), as in the two runs of
  `DiLoCoLosses.SpoiledRuns`.
- `maybe_aggregate` tests readiness in one lock section and takes the buffer in another. The
  test survives every sequence of steps of given kinds exactly when taking and resetting the
  buffer are not among the kinds (`DiLoCoRuns.GateSurvivesIff`). The round number it returns
  is read separately too, and is that of the round it took exactly when no other caller took
  one in between (`DiLoCoRuns.ReportedRoundIff`).
- Dropping a bucket idle for 600 seconds can change an answer exactly when 600 seconds do
  not refill a bucket that can hold a token at all (`RateLimiter.EvictionInvisibleIff`).
- A stored reliability of 0 ranks as 1, because a falsy score is replaced: such a node is
  picked over a like one stored at a half (`Scheduler.ZeroPickedOverHalf`). Stored scores
  decide the ranking of two nodes exactly when neither is a 0 beside a score above 0 and up
  to 1 (`Scheduler.RanksAsStoredIff`).
- `refresh_token_ttl`, documented as 30 days, is never used. A refresh token that is not
  redeemed is on record exactly until the first cleanup more than an hour after its issue
  (`OAuthProvider.RefreshLivesWithAccess`), and without cleanups it has no end.
- A refresh does not compare the caller's client with the one on the old token. A token can
  so end with a client that its user never authorized (`OAuthProvider.RefreshChangesClient`).
  Over a run every token stays with a client, user and scope authorized together exactly
  when every refresh that succeeds is made by a client so authorized, as when clients only
  refresh their own tokens (`OAuthProvider.ClientsHoldIff`).
- A transfer that passes every check uses one of the sender's ten slots even when its write
  is refused and it is rolled back (`CreditTransfers.SlotSpentIff`): ten refused writes leave
  no transfer and still close the hour (`CreditTransfers.RefusalsUseTheHour`).
- A transfer id is a hash of sender, receiver and clock. The pending map ends a call as it was
  exactly when the call did not pass or the id was not pending (`CreditTransfers.RecordsAfter`);
  a second transfer under the same id drops the first, unconfirmed
  (`CreditTransfers.CollisionDrops`).
- Rounds of advantages can be finalised again, and for failed jobs too. `steps` is the number
  of prompts of the finalised rounds exactly when none was finalised twice
  (`GrpoCoordinator.StepsAreSumIff`), and a failed job stays failed exactly as long as no
  finalisation reaches the target (`GrpoCoordinator.FailedStaysIff`);
  `GrpoCoordinator.FinalisedTwice` breaks both.
- The reliability bonus is documented as more than 99 % uptime over seven days; the code
  asks that at most one of 100 tasks failed, over at least ten (`CreditMultipliers.RatesExact`).
  The early-adopter status is stored and never read
  (`CreditMultipliers.EarlyStatusUnread`). The model follows the code in both.
- The join-link format is documented with its slashes encoded and with `name` before `invite`
  (tools/gridlink/link.py:10-13); the code leaves a slash as it is and prints the invite first
  (`JoinLink.UriExact`, `PercentCoding.QuoteExact`). The model follows the code.

## Model

| member | source | states |
|---|---|---|
| GradientCodec.FlattenNumeric | legacy/services_python/grpc_service.py:801-814 | the loop over nested lists collects exactly the numeric leaves in order, and the shape beside them |
| GradientCodec.UnflattenNumeric | legacy/services_python/grpc_service.py:836-845 | slicing with a running offset rebuilds the value the shape describes, zero where the numbers run out |
| GradientCodec.SizeIsLengthIffNumeric | legacy/services_python/grpc_service.py:829-834 | the size of a shape is the flattened length exactly for all-numeric values |
| GradientCodec.RoundTripIffNumeric | legacy/services_python/grpc_service.py:801-845 | unflatten undoes flatten exactly for all-numeric values |
| GradientCodec.StrayLeafShifts | legacy/services_python/grpc_service.py:801-845 | a concrete value that does not come back |
| GradientCodec.FlatInOrder | legacy/services_python/grpc_service.py:801-814 | flattening keeps the order of a list, takes a number as itself and any other leaf as nothing |
| GradientCodec.PayloadToVector | legacy/services_python/grpc_service.py:784-799 | the loop over sorted names yields the specified vector and spec |
| GradientCodec.VectorToPayload | legacy/services_python/grpc_service.py:816-827 | the loop over the spec decodes the specified payload |
| GradientCodec.PayloadRoundTrip | legacy/services_python/grpc_service.py:784-827 | a payload survives, losing only the entries that hold no number, exactly when the other entries are all-numeric |
| GradientCodec.LeIff | legacy/services_python/grpc_service.py:784-785 | names are sorted with a proper prefix first, else by the first character that differs |
| GradientCodec.NamesAscend | legacy/services_python/grpc_service.py:784-799 | the vector of a payload holds the numbers of an entry after those of every smaller name and before those of every greater one |
| RobustAggregation.MajoritySurvives | legacy/services_python/grpc_service.py:755-766 | at least floor(n/2)+1 of n vectors survive the filter, so the fallback to all vectors never fires |
| RobustAggregation.RejectedIff | legacy/services_python/grpc_service.py:747-762 | a node is rejected exactly when its squared distance from the mean is above 1e-12 and above nine times that of more than half of the vectors, by count |
| RobustAggregation.MeansExact | legacy/services_python/grpc_service.py:747-749 | the number of vectors times a coordinate of that mean is the sum of their coordinates |
| RobustAggregation.Dist2Exact | legacy/services_python/grpc_service.py:750-754 | a coordinate adds the square of its difference to the squared distance |
| RobustAggregation.FarIffBeyond | legacy/services_python/grpc_service.py:755-762 | the rejected nodes are exactly those beyond the threshold |
| RobustAggregation.FewAreNeverFar | legacy/services_python/grpc_service.py:758-762 | three vectors or fewer are never beyond the threshold: the guard on their number is redundant |
| RobustAggregation.NearMean | legacy/services_python/grpc_service.py:747-773 | a positively weighted mean of vectors within a distance of a point is within that distance of it |
| RobustAggregation.AggregateNearMean | legacy/services_python/grpc_service.py:747-773 | whatever weights were reported, the aggregate is within max(3 x median, 1e-6) of the unweighted mean |
| RobustAggregation.AggregateInHull | legacy/services_python/grpc_service.py:766-773 | each coordinate of the aggregate lies between the bounds of the surviving values |
| RobustAggregation.RootsFilterAlike | legacy/services_python/grpc_service.py:750-762 | comparing squared distances rejects the same nodes as comparing the distances themselves |
| Sums.MedianMajority | legacy/services_python/grpc_service.py:755-756 | the upper median of the distances is the least number that more than half of them meet: it is at most a bound exactly when more than half are |
| Sums.MedianBelow | legacy/services_python/grpc_service.py:755-756 | and below a bound exactly when more than half are below it |
| Sums.AscendingUnique | legacy/services_python/grpc_service.py:755 | two ascending rearrangements of the same distances are equal, so any sort gives the same median |
| Sums.Jensen | legacy/services_python/grpc_service.py:766-773 | the squared distance from a point is convex under positive weights, over all coordinates together |
| GradientAggregation.DetectByzantineGradients | legacy/services_python/grpc_service.py:713-782 | the whole path, with its deferrals, computes the specified outcome |
| GradientAggregation.AggregatedIff | legacy/services_python/grpc_service.py:713-745 | a call aggregates exactly when there are payloads and all have the same shapes and length, and answers nothing exactly when there are none |
| GradientAggregation.ResultExact | legacy/services_python/grpc_service.py:713-782 | what a call returns, in full: who is rejected, by counting distances; the sources and the weight used for each, the reported one but at least 1e-6, or 1; the flag; and each coordinate, which times the sum of those weights is the weighted sum over the sources |
| GradientAggregation.FallbackRead | legacy/services_python/grpc_service.py:784-790 | a compressed payload is read as the fallback it carries, any other as it is |
| GradientAggregation.ResultNearMean | legacy/services_python/grpc_service.py:713-782 | what a call returns: exactly the far nodes rejected, and an aggregate within the threshold of the mean |
| GradientAggregation.ResultInHull | legacy/services_python/grpc_service.py:713-782 | each coordinate of what a call returns lies between any bounds of the surviving values there |
| GradientAggregation.UnflatOfMean | legacy/services_python/grpc_service.py:769-782 | unflattening the mean of flattened values is the mean leaf by leaf in the original nesting |
| GradientAggregation.ParametersAreLeafMeans | legacy/services_python/grpc_service.py:713-845 | end to end, under each name the surviving majority holds equally nested numbers and the result is their weighted leaf-by-leaf mean, with the same names |
| DiLoCo.DiLoCoOuterStep.Create | legacy/services_python/diloco.py:84-122 | refuses exactly the settings the initialiser rejects, inner steps included, and starts with zero momentum |
| DiLoCo.DiLoCoOuterStep.SubmitPseudoGradient | legacy/services_python/diloco.py:135-167 | buffers a submission exactly when names and shapes match, replacing the worker's earlier one: one entry per worker, and this worker among them |
| DiLoCo.DiLoCoOuterStep.ReadyToAggregate | legacy/services_python/diloco.py:169-172 | ready exactly when enough distinct workers have a submission buffered, by the invariant that the buffer holds one entry per worker |
| DiLoCo.DiLoCoOuterStep.TakeSnapshot | legacy/services_python/diloco.py:207-216 | first lock section: swaps the buffer out and advances the round |
| DiLoCo.DiLoCoOuterStep.AverageGradients | legacy/services_python/diloco.py:218-244 | the loops compute the layerwise mean, or fail on a missing layer or a wrong shape |
| DiLoCo.DiLoCoOuterStep.ApplyStep | legacy/services_python/diloco.py:246-262 | the in-place loop over parameters is one Nesterov step on all of them |
| DiLoCo.DiLoCoOuterStep.AggregateAndStep | legacy/services_python/diloco.py:179-272 | an undisturbed aggregation: what each outcome leaves behind, failures leaving weights and momentum alone |
| DiLoCoAverages.AverageExact | legacy/services_python/diloco.py:218-244 | an average succeeds exactly when every entry has every layer in its shape; then at every coordinate the number of entries times the average is the sum over all of them |
| DiLoCoAverages.RoundsExact | legacy/services_python/diloco.py:207-244 | in every reachable state the average of each committed round, times the number of entries its filter kept, is their sum at every coordinate; without a filter, the sum of exactly the submissions the round took |
| DiLoCo.DiLoCoOuterStep.ResetRound | legacy/services_python/diloco.py:288-292 | empties the buffer and nothing else |
| DiLoCoProtocol.StepConserves | legacy/services_python/diloco.py:153-161 | no step of any interleaving loses or doubles a submission, and an accepted one enters once |
| DiLoCoProtocol.EachSubmissionOnce | legacy/services_python/diloco.py:207-270 | in every reachable state, under any filters, an accepted submission is in exactly one place: buffered, in flight, taken by one committed round, or lost once |
| DiLoCoLosses.AverageOutcome | legacy/services_python/diloco.py:215-244 | an aggregation gives its submissions up exactly when what the filter keeps is empty or not averageable, and otherwise its commit adds the round of all it took |
| DiLoCoLosses.GivesUpIff | legacy/services_python/diloco.py:207-244 | over all runs, a filter makes some submission be given up exactly when it can spoil a well-shaped snapshot; the absent filter cannot |
| DiLoCoLosses.SpoiledRuns | legacy/services_python/diloco.py:225-242 | two runs that end with their submission lost, one to a filter that keeps nothing, one to a missing layer |
| DiLoCoLosses.TakenOnce | legacy/services_python/diloco.py:207-244 | when no filter spoils a snapshot, every loss is an overwrite by the same worker or a reset, and every other submission ends up taken by exactly one round |
| DiLoCoLosses.AveragedOnceIff | legacy/services_python/diloco.py:153-161 | over all runs under a filter, every settled submission neither overwritten nor reset is averaged by exactly one round precisely when the filter keeps every well-shaped snapshot whole; the absent filter does, and so does one that always raises |
| DiLoCoLosses.DroppingRun | legacy/services_python/diloco.py:215-244 | a filter that spoils no snapshot, and a run in which the second of two submissions is in no average |
| DiLoCoProtocol.AverageStable | legacy/services_python/diloco.py:218-244 | averaging against weights read without the lock gives the same average, whenever they are read |
| DiLoCoProtocol.Reachable | legacy/services_python/diloco.py:207-270 | every reachable state satisfies the protocol invariant: distinct rounds, averages of their own entries, losses with a true cause, weights the replay of the commits |
| DiLoCoRuns.Serializable | legacy/services_python/diloco.py:207-270 | every interleaving leaves weights and momentum as the sequential run of its rounds in commit order |
| DiLoCoRuns.OnlyCommitsMove | legacy/services_python/diloco.py:207-262 | only a commit changes weights or momentum; submits, resets, snapshots and failed averages do not |
| DiLoCoRuns.ConservationLaw | legacy/services_python/diloco.py:246-262 | at every coordinate of every reachable state, (1-mu)(start - w) + lr mu^2 m equals lr times the sum of committed averages |
| DiLoCoRuns.NesterovBounded | legacy/services_python/diloco.py:246-262 | one round keeps momentum within G/(1-mu) and moves a weight by at most lr G/(1-mu) |
| DiLoCoRuns.BoundedRun | legacy/services_python/diloco.py:246-262 | with accepted coordinates bounded by G, in every reachable state momentum is within G/(1-mu), and after t commits the drift is within t lr G/(1-mu) |
| DiLoCoRuns.CommitMoves | legacy/services_python/diloco.py:246-262 | from every such state, the next commit moves no weight by more than lr G/(1-mu) |
| DiLoCoRuns.GateHolds | legacy/services_python/diloco.py:441-448 | the readiness test survives any steps that neither take nor reset the buffer |
| DiLoCoRuns.GateSurvivesIff | legacy/services_python/diloco.py:441-448 | the readiness test survives every sequence drawn from a set of steps exactly when the set neither takes nor resets the buffer |
| DiLoCoRuns.ReportedRoundIff | legacy/services_python/diloco.py:441-448 | the round number returned with an aggregation is that of the round it took exactly when no other round was taken between the two lock sections |
| Scheduler.MeetsMonotone | legacy/services_python/scheduler.py:138-151 | more memory never loses a task and weaker requirements never lose a node |
| Scheduler.CanRunIff | legacy/services_python/scheduler.py:128-151 | a node can run a task exactly when the memory asked for is absent, not positive, or at most a 1024th of its megabytes and, for CUDA, it has memory and its trimmed lower-case model is not empty, none, cpu or unknown |
| Scheduler.StripExact | legacy/services_python/scheduler.py:147-150 | trimming takes white space off both ends, all of it and nothing else |
| Scheduler.LowerExact | legacy/services_python/scheduler.py:147-150 | lower-casing changes capital letters to their small ones and nothing else |
| Scheduler.BenchmarkScoreMeaning | legacy/services_python/scheduler.py:154-168 | the first of four names holding a number decides; otherwise the score is a mean of the nested ones |
| Scheduler.NestedScoresExact | legacy/services_python/scheduler.py:154-168 | scores come from nested entries only, in order, numbers as they are and Booleans as 0 or 1 |
| Scheduler.NestedMeanExact | legacy/services_python/scheduler.py:154-168 | without a number of its own, a score times the number of nested ones is their sum |
| Scheduler.RanksAsStoredIff | legacy/services_python/scheduler.py:177-183 | two stored reliabilities decide the ranking, whatever else the nodes hold, exactly when neither is a 0 beside a score above 0 and up to 1 |
| Scheduler.ZeroPickedOverHalf | legacy/services_python/scheduler.py:170-184 | a node stored at 0 is picked over a like one stored at a half |
| Scheduler.BestHeadsTheSort | legacy/services_python/scheduler.py:177-184 | the head of any stable descending sort is the node the model picks |
| Scheduler.PickBest | legacy/services_python/scheduler.py:170-184 | a capable candidate that no capable one beats; none exactly when no candidate is capable |
| Scheduler.GreedyMatches | legacy/services_python/scheduler.py:92-100 | assignments respect capabilities and no node gets two tasks |
| Scheduler.HalfOfTheBest | legacy/services_python/scheduler.py:92-100 | at least half as many tasks as any one-to-one capability-respecting assignment |
| Scheduler.HalfIsTight | legacy/services_python/scheduler.py:92-100 | two tasks and two nodes for which the pass assigns exactly half |
| Scheduler.EarlierTaskTookIt | legacy/services_python/scheduler.py:92-100 | a node that a waiting task could use, or that beats what a task got, went to an earlier task |
| Scheduler.PassExact | legacy/services_python/scheduler.py:80-115 | whoever gets a task was connected, contributing and free, meets the literal memory and CUDA conditions and gets no other; a task is left out only when every such node went to an earlier task |
| Scheduler.PairsExact | legacy/services_python/scheduler.py:92-100 | what is recorded is exactly the matching, one record for each task placed |
| Scheduler.IdleIff | legacy/services_python/scheduler.py:102-115 | the candidates are exactly the connected, contributing nodes with nothing pending |
| Scheduler.TaskScheduler.IdleCandidates | legacy/services_python/scheduler.py:102-115 | the loop collects those candidates in connection order |
| Scheduler.TaskScheduler.AssignQueuedTasks | legacy/services_python/scheduler.py:80-100 | the loop with its shrinking candidates records exactly the greedy matching, skipping tasks it cannot place |
| Scheduler.PassKeepsPending | legacy/services_python/scheduler.py:92-115 | a pass replaces no pending assignment, and a node has one afterwards exactly when it was matched and reached |
| RateLimiter.TokenBucket.Take | legacy/services_python/rate_limiter.py:26-34 | refills lazily up to capacity, then takes the tokens or leaves them |
| RateLimiter.TokenBucket.GetWaitTime | legacy/services_python/rate_limiter.py:36-43 | computes the specified wait without changing the bucket |
| RateLimiter.WaitTimeExact | legacy/services_python/rate_limiter.py:26-43 | after w seconds a request is granted exactly when it fits the capacity and w is at least the reported wait |
| RateLimiter.WindowBound | legacy/services_python/rate_limiter.py:26-34 | over any run one bucket grants at most capacity + rate (t - s) inside any window [s, t] |
| RateLimiter.RateLimiter.TakeFor | legacy/services_python/rate_limiter.py:144-152 | creates a full bucket on first sight and takes one token from that client's bucket only |
| RateLimiter.RateLimiter.CleanupIdle | legacy/services_python/rate_limiter.py:95-110 | forgets exactly the buckets idle for more than 600 seconds |
| RateLimiter.SameAnswers | legacy/services_python/rate_limiter.py:95-110 | with capacity at most 600 x rate, a limiter that evicts answers every run like one that never forgets |
| RateLimiter.EvictionInvisibleIff | legacy/services_python/rate_limiter.py:95-152 | eviction never changes an answer, over all runs, exactly when capacity < 1 or capacity <= 600 x rate |
| SseBudget.SseByteBudget.Throttle | legacy/services_python/sse_limits.py:44-62 | the loop ends, produces the specified charges and leaves the specified allowance |
| SseBudget.TurnsExact | legacy/services_python/sse_limits.py:44-62 | the exact number of iterations, never more than ceil(n/rate) + 1, despite truncation and the zeroed allowance |
| SseBudget.CeilCovers | legacy/services_python/sse_limits.py:50-62 | the number of rates in that bound is the least that covers the bytes |
| SseBudget.AllCharged | legacy/services_python/sse_limits.py:44-62 | the charges of a call add up to exactly the bytes asked for, and none exceeds the level it finds |
| SseBudget.WindowBound | legacy/services_python/sse_limits.py:44-62 | over any run of calls at most rate + rate (t - s) bytes are charged inside any window [s, t] |
| AdminSse.AdminSseLimiter.TryAcquire | legacy/services_python/sse_limits.py:73-82 | admits exactly when both counts of open sessions are below their limits |
| AdminSse.AdminSseLimiter.ReleaseOne | legacy/services_python/sse_limits.py:84-94 | closes one session of that address, or nothing when none is open, and the counters never drift |
| AdminSse.LimitsHold | legacy/services_python/sse_limits.py:65-94 | whatever is acquired and released, neither limit is exceeded |
| PercentCoding.UnquoteQuote | tools/gridlink/link.py:91 | decoding undoes percent-encoding for every Unicode text, through UTF-8 |
| PercentCoding.QuotedPlain | tools/gridlink/link.py:91 | encoded text holds no separator and no space |
| PercentCoding.QuoteExact | tools/gridlink/link.py:91 | unreserved characters and the slash stand for themselves, other ASCII ones are a percent sign and two upper-case digits |
| PercentCoding.QuoteInOrder | tools/gridlink/link.py:91 | a text is encoded character by character, in order |
| PercentCoding.QuoteAccent | tools/gridlink/link.py:91 | a two-byte character; `QuoteEuro` and `QuoteSmile` are a three- and a four-byte one |
| PercentCoding.StrayByte | tools/gridlink/link.py:133 | a byte that starts no character is read as the replacement character, on its own |
| JoinLink.ParsePrintedInt | tools/gridlink/link.py:80 | reading a printed integer gives it back |
| JoinLink.ReadPrintedQuery | tools/gridlink/link.py:91-92 | reading a printed query gives the fields back in order |
| JoinLink.RoundTripIff | tools/gridlink/link.py:73-160 | a printed link parses to itself exactly when its host is trimmed, its engine known, its provider present and no optional field blank |
| JoinLink.UriExact | tools/gridlink/link.py:73-92 | the printed link in full, part by part |
| JoinLink.DigitsExact | tools/gridlink/link.py:80 | a port is printed in decimal digits |
| JoinLink.OmittedFields | tools/gridlink/link.py:131-160 | the port, encryption, provider and engine of a link that leaves them out |
| JoinLink.PlusIsSpace | tools/gridlink/link.py:131-133 | a plus sign in a query is read as a space |
| JoinLink.FieldsRead | tools/gridlink/link.py:131-160 | host, engine and port as they are read, or the refusal of the first that is not usable |
| JoinLink.ForgivenPort | tools/gridlink/link.py:152 | a port may have space around it and a sign |
| JoinLink.PastedText | tools/gridlink/link.py:96-103 | space around a pasted link, and quotation marks within it, change nothing |
| JoinLink.BreakIgnored | tools/gridlink/link.py:132-133 | a tab or line break inside the query changes nothing |
| JoinLink.FragmentIgnored | tools/gridlink/link.py:132-133 | a fragment changes nothing |
| JoinLink.Renormalises | tools/gridlink/link.py:96-160 | any accepted text, printed and read again, gives the same link up to blank optional fields |
| JoinLink.UnknownFieldIgnored | tools/gridlink/link.py:131-160 | a field the reader does not know changes nothing, first, last or in between |
| GrpoCoordinator.GrpoCoordinator.StartRound | legacy/services_python/grpo_coordinator.py:152-234 | numbers the round one after the last and opens it empty, or refuses an unknown job |
| GrpoCoordinator.GrpoCoordinator.HandleRewardReport | legacy/services_python/grpo_coordinator.py:236-287 | stores the worker's rewards in that round, dropping reports for unknown jobs and rounds |
| GrpoCoordinator.ReportLocal | legacy/services_python/grpo_coordinator.py:236-287 | a report puts the worker's rewards in the round and changes no other worker's rewards, no other round and nothing else |
| GrpoCoordinator.RoundHoldsLastReports | legacy/services_python/grpo_coordinator.py:236-287 | over every run a started round holds for each worker the rewards of its last report to it, and nothing for one that made none |
| GrpoCoordinator.AllHeard | legacy/services_python/grpo_coordinator.py:236-376 | once every listed worker has reported to a started round all have, and each is sent as many advantages as it last reported rewards |
| GrpoCoordinator.GrpoCoordinator.AllWorkersReported | legacy/services_python/grpo_coordinator.py:289-300 | true exactly when job and round exist and every listed worker has reported |
| GrpoCoordinator.GrpoCoordinator.FinaliseRound | legacy/services_python/grpo_coordinator.py:302-427 | collecting, normalising and slicing with a running index sends and records what is specified |
| GrpoCoordinator.GrpoCoordinator.FailJob | legacy/services_python/grpo_coordinator.py:429-434 | marks a known job failed and leaves everything else |
| GrpoCoordinator.SlicesJoin | legacy/services_python/grpo_coordinator.py:365-376 | the slices sent, in worker order, concatenate to the advantage list, each as long as its worker's report, even with a worker listed twice |
| GrpoCoordinator.MessageExact | legacy/services_python/grpo_coordinator.py:350-376 | each number a worker is sent, times the deviation plus 1e-8, is its reward less the mean of all rewards, and 0 while there is at most one |
| GrpoCoordinator.NothingCollected | legacy/services_python/grpo_coordinator.py:350-379 | a round without rewards closes with mean 0, no advantages and one prompt |
| GrpoCoordinator.NumPromptsExact | legacy/services_python/grpo_coordinator.py:377-379 | a round counts one prompt for every full group of rewards, and at least one |
| GrpoCoordinator.AdvantagesSumToZero | legacy/services_python/grpo_coordinator.py:354-363 | advantages sum to zero over the group |
| GrpoCoordinator.SquaresExact | legacy/services_python/grpo_coordinator.py:354-363 | their squares sum to n (sd / (sd + 1e-8))^2 |
| GrpoCoordinator.SquaresAtMost | legacy/services_python/grpo_coordinator.py:354-363 | and so to at most n |
| GrpoCoordinator.OrderKept | legacy/services_python/grpo_coordinator.py:354-363 | advantages are ordered as rewards are, across workers, and positive exactly above the mean |
| GrpoCoordinator.ShiftInvisible | legacy/services_python/grpo_coordinator.py:354-363 | raising every reward by the same amount changes no advantage |
| GrpoCoordinator.AlwaysInv | legacy/services_python/grpo_coordinator.py:152-427 | in every run rounds are numbered 1 to the current one, kept advantages are normalised, a running job is below its target and a completed one at it |
| GrpoCoordinator.StepsAreSumIff | legacy/services_python/grpo_coordinator.py:376-382 | over any run the steps are the prompts of the finalised rounds exactly when no round was finalised twice, and otherwise more |
| GrpoCoordinator.FailedStaysIff | legacy/services_python/grpo_coordinator.py:420-434 | a failed job stays failed throughout a run exactly when no finalisation reaches the target |
| GrpoCoordinator.FinalisedTwice | legacy/services_python/grpo_coordinator.py:302-434 | a run that counts two steps for one prompt and completes a failed job |
| JobQueue.StableSortSorts | legacy/services_python/job_submission.py:229-231 | the sort rearranges, orders by (priority, created_at) and keeps ties in order |
| JobQueue.SubmitKeepsIff | legacy/services_python/job_submission.py:226-231 | a submission keeps the queue consistent exactly when its id is new |
| JobQueue.StepKeeps | legacy/services_python/job_submission.py:226-361 | every operation keeps each job in exactly one place with a fitting status, and pending sorted |
| JobQueue.StepConserves | legacy/services_python/job_submission.py:226-361 | no job is lost, changed or invented, except that a submission adds its own |
| JobQueue.FinishedStays | legacy/services_python/job_submission.py:282-361 | finished jobs never move or change again |
| JobQueue.GetNextLeast | legacy/services_python/job_submission.py:265-280 | a node is given the least-key job it can run, which moves from pending to running |
| JobQueue.SuitsIff | legacy/services_python/job_submission.py:268-274 | a node suits a job exactly when its memory, none if unknown, is at least what is asked for and it has CUDA if that is required |
| JobQueue.PendingInOrder | legacy/services_python/job_submission.py:229-231 | nothing pending is behind something less urgent, critical before high, normal, low and background, or behind something of its level created later |
| JobQueue.FirstAbleIsTaken | legacy/services_python/job_submission.py:226-280 | in every queue a run reaches, the job given can be run by the node, no such job is more urgent, none of its level is older, and none is given only when there is none |
| JobQueue.OutcomesExact | legacy/services_python/job_submission.py:282-361 | how each call ends a job, with which status and note, and when it changes nothing |
| JobQueue.RunKeeps | legacy/services_python/job_submission.py:226-361 | over every run with fresh ids, exactly the submitted jobs are held, each in one place |
| JobQueue.JobQueue.Submit | legacy/services_python/job_submission.py:226-231 | the appended and sorted list is the specified one |
| JobQueue.JobQueue.GetNext | legacy/services_python/job_submission.py:265-280 | the search takes the first suitable job, marks it running and returns it, or none |
| JobQueue.JobQueue.Complete | legacy/services_python/job_submission.py:282-290 | a running job is completed with its result; any other id changes nothing |
| JobQueue.JobQueue.Fail | legacy/services_python/job_submission.py:303-318 | a running or pending job fails with its error; any other id changes nothing |
| JobQueue.JobQueue.Cancel | legacy/services_python/job_submission.py:334-361 | cancels a pending or running job and says whether there was one |
| OAuthProvider.RefreshInv | legacy/services_python/oauth_provider.py:427-452 | a refresh keeps the two token maps inverse to each other and never answers "Token not found" |
| OAuthProvider.ExchangeOnce | legacy/services_python/oauth_provider.py:359-402 | an exchange succeeds exactly under its seven conditions, its token names the code's client, user and scope, and no exchange of that code succeeds after it (section 4.1.2 of RFC 6749) |
| OAuthProvider.RefusalsExact | legacy/services_python/oauth_provider.py:359-396 | each refusal of an exchange is given exactly when its check is the first that fails |
| OAuthProvider.CodeLives | legacy/services_python/oauth_provider.py:332-402 | a code is redeemed with the right client, redirect and verifier exactly up to 600 seconds after it was given |
| OAuthProvider.RefreshRotates | legacy/services_python/oauth_provider.py:427-452 | a refresh succeeds exactly for an authentic client and a token on record, retires both old tokens and keeps user and scope, but names the client that asked |
| OAuthProvider.OwnedStepIff | legacy/services_python/oauth_provider.py:404-447 | one operation keeps every token with a client authorized for it exactly when it is no refresh by another, unauthorized client |
| OAuthProvider.ClientsHoldIff | legacy/services_python/oauth_provider.py:332-497 | over any run every token is for a client, user and scope authorized together exactly when every successful refresh is by such a client, as when clients refresh only their own tokens (section 6 of RFC 6749) |
| OAuthProvider.RefreshChangesClient | legacy/services_python/oauth_provider.py:427-447 | a run after which one client holds a token that the user authorized for another |
| OAuthProvider.CleanupExact | legacy/services_python/oauth_provider.py:482-497 | cleaning up is invisible to validation and removes exactly what had expired, refresh tokens with their access tokens |
| OAuthProvider.OnRecordIff | legacy/services_python/oauth_provider.py:404-497 | over any run from any reachable state a refresh token stays on record exactly when it is not redeemed and no cleanup reads a clock past its access token's expiry |
| OAuthProvider.RefreshLivesWithAccess | legacy/services_python/oauth_provider.py:359-497 | the same from the issue on: an hour, whatever else happens |
| OAuthProvider.TokenLives | legacy/services_python/oauth_provider.py:404-470 | an issued token validates exactly up to 3600 seconds after its issue |
| OAuthProvider.StepKeeps | legacy/services_python/oauth_provider.py:332-497 | every operation keeps the maps inverse, spent credentials spent, and grants within what was authorized |
| OAuthProvider.EveryRun | legacy/services_python/oauth_provider.py:332-497 | over any run no code and no refresh token yields tokens twice, across cleanups too, and every token's user authorized its scope for some client |
| OAuthProvider.OAuthProvider.Authorize | legacy/services_python/oauth_provider.py:332-357 | records the code with its expiry |
| OAuthProvider.OAuthProvider.ExchangeCode | legacy/services_python/oauth_provider.py:359-402 | the checks in their order, each with its own refusal, then the code is spent and tokens are issued |
| OAuthProvider.OAuthProvider.RefreshAccessToken | legacy/services_python/oauth_provider.py:427-447 | the checks in their order, then the old pair is revoked and a new one issued |
| OAuthProvider.OAuthProvider.CleanupExpired | legacy/services_python/oauth_provider.py:482-497 | revoking token by token ends where removing all expired ones together does |
| OAuthProvider.OAuthProvider.ValidateToken | legacy/services_python/oauth_provider.py:454-480 | a token is active exactly when stored and not expired |
| CreditTransfers.SucceedsIff | legacy/services_python/credit_transfers.py:204-261 | a transfer succeeds exactly when database, amount, balance and the last hour allow it and the write goes through |
| CreditTransfers.SecondCheckPasses | legacy/services_python/credit_transfers.py:217-227 | the repeated validation cannot fail once the first has passed |
| CreditTransfers.RecordsAfter | legacy/services_python/credit_transfers.py:197-261 | the history grows by exactly this transfer on success and loses no other record on failure, and the pending map ends as it was exactly when the call did not pass or its id was not pending |
| CreditTransfers.CollisionDrops | legacy/services_python/credit_transfers.py:124-261 | two transfers under one id: the second, going through, takes the first out of the pending map |
| CreditTransfers.SlotsAfter | legacy/services_python/credit_transfers.py:69-261 | the sender's hourly list gets a slot exactly when the call passes, whatever becomes of the write, and no other list changes |
| CreditTransfers.SlotSpentIff | legacy/services_python/credit_transfers.py:197-261 | a slot is spent without a transfer exactly when the call passes and its write does not go through |
| CreditTransfers.RefusalsUseTheHour | legacy/services_python/credit_transfers.py:204-261 | ten refused writes leave no transfer, and the sender's next good one within the hour is turned down |
| CreditTransfers.StepKeeps | legacy/services_python/credit_transfers.py:69-76 | every operation keeps each node's records spaced: eleven in a row span an hour or more |
| CreditTransfers.VelocityHolds | legacy/services_python/credit_transfers.py:69-180 | over any run no node records more than ten transfers in any window (t - 3600, t] |
| CreditTransfers.VelocityExact | legacy/services_python/credit_transfers.py:69-102 | after any run a valid order is let through exactly when its sender recorded fewer than ten transfers in the last 3600 seconds, and else refused for that |
| CreditTransfers.ProblemsExact | legacy/services_python/credit_transfers.py:78-102 | what is wrong with an order, in numbers and in the order of the checks |
| CreditTransfers.CreditTransferManager.CheckVelocityLimit | legacy/services_python/credit_transfers.py:69-76 | prunes the node's list and says whether fewer than ten remain |
| CreditTransfers.CreditTransferManager.ValidateTransfer | legacy/services_python/credit_transfers.py:78-102 | the checks in their order, pruning only when the others pass |
| CreditTransfers.CreditTransferManager.CreateTransfer | legacy/services_python/credit_transfers.py:124-166 | validates, then records the transfer in all three places |
| CreditTransfers.CreditTransferManager.ConfirmTransfer | legacy/services_python/credit_transfers.py:168-180 | removes the pending transfer and says whether there was one |
| CreditTransfers.CreditTransferManager.TransferCredits | legacy/services_python/credit_transfers.py:204-261 | both validations, the write and its rollback end in the specified books and result |
| CreditMultipliers.RatesExact | legacy/services_python/credit_multipliers.py:46-58 | the bonus and the penalty in whole tasks: at most one, and more than two, of 100 failed, over at least ten |
| CreditMultipliers.EarlyStatusUnread | legacy/services_python/credit_multipliers.py:223-228 | setting the early-adopter status writes it, no multiplier reads it, and only the start set with it counts |
| CreditMultipliers.BonusExcludesPenalty | legacy/services_python/credit_multipliers.py:46-58 | the reliability bonus and the error penalty never apply together |
| CreditMultipliers.FinalBounds | legacy/services_python/credit_multipliers.py:99-152 | the final multiplier lies between 0.64 and 3.96 |
| CreditMultipliers.FinalExact | legacy/services_python/credit_multipliers.py:99-152 | the final multiplier in numbers: each of the six factors and when it applies |
| CreditMultipliers.FreshNode | legacy/services_python/credit_multipliers.py:92-97 | what a node unknown so far starts with |
| CreditMultipliers.SurgeAndDemand | legacy/services_python/credit_multipliers.py:217-231 | a surge holds for as long as it was triggered for, and demand is low exactly when it was set below a fifth |
| CreditMultipliers.TasksCounted | legacy/services_python/credit_multipliers.py:204-215 | over every run, the tasks a node completed and failed, its time up and its opt-in are those recorded for it and for nobody else |
| CreditMultipliers.FinalReachesBounds | legacy/services_python/credit_multipliers.py:99-152 | both ends are reached |
| CreditMultipliers.CapKeptIff | legacy/services_python/credit_multipliers.py:177-189 | daily earnings stay within [0, cap] exactly when the amount does not undo more than the window earned |
| CreditMultipliers.GrantExact | legacy/services_python/credit_multipliers.py:177-189 | the grant is the smaller of the amount times the final multiplier and what the cap has left in a window of 86400 seconds, and is reported as capped exactly when cut |
| CreditMultipliers.EarningsInCap | legacy/services_python/credit_multipliers.py:177-189 | in every state a run reaches, every node's daily earnings lie within [0, cap] |
| CreditMultipliers.DailyCapHolds | legacy/services_python/credit_multipliers.py:177-189 | within T seconds a node is granted at most cap (floor(T / 86400) + 1), whatever multipliers applied |
| CreditMultipliers.CreditMultiplierEngine.CalculateMultipliers | legacy/services_python/credit_multipliers.py:99-152 | creates the node's state on first sight, stores the opt-in and returns the factors that apply, multiplied |
| CreditMultipliers.CreditMultiplierEngine.CalculateCredits | legacy/services_python/credit_multipliers.py:154-189 | rolls the daily window, caps the grant and books it |
| CreditMultipliers.CreditMultiplierEngine.RecordTaskCompletion | legacy/services_python/credit_multipliers.py:204-210 | counts the task and the uptime of that node only |
| CreditMultipliers.CreditMultiplierEngine.SetEarlyAdopter | legacy/services_python/credit_multipliers.py:223-228 | writes the status, and the start only when it is set |

## Left out

- Rounding, NaN and infinities: arithmetic is over exact reals, so the NaN and infinity
  branches of transfers and advantages do not appear.
- Square roots: distances are compared squared (`RobustAggregation.RootsFilterAlike` shows
  the choice is the same), and a standard deviation is an argument with the right square.
- The tensor and compressed-gradient paths of aggregation, and `_result_weight`: node
  weights are any map of reals.
- Arrays are a shape and their elements; element types, copies, and the broadcasting of a
  wrongly shaped array that a defence filter put in are not modelled: such an average fails.
- A defence filter is any function from the snapshot to a list of entries, or its failure;
  `make_adaptive_defense_filter` itself is not modelled.
- DiLoCoRuns.BoundedRun: covers runs without a defence filter, because a filter may return
  entries that were never submitted.
- DiLoCoRuns.CommitMoves: covers the same runs, for the same reason.
- `DiLoCoCoordinator` beyond its readiness gates: the map of jobs adds a lookup.
- Text parsing in the scheduler: hardware and requirement figures are numbers already, and
  labels are trimmed and lower-cased over ASCII.
- Scheduler.HalfOfTheBest: assumes non-empty node ids, which registration enforces
  (legacy/services_python/grpc_service.py:154); a node with an empty id is never assigned.
- Changes by other callers while a scheduling pass waits on the database, except that a
  node may disconnect before its message is queued.
- The limiter's blocking, violations, headers and over-capacity eviction: only bucket
  contents are modelled.
- Malformed UTF-8 inside a join link: a byte that starts no character is replaced on its
  own, while Python may replace several at once; lone surrogates do not exist in the model.
- Join-link text that is a bare host or an http or grpc URL: the model answers `Elsewhere`.
- Underscores and non-ASCII digits in a port, compatibility characters before the query,
  and the checks on a bracketed address.
- Deadlines, candidate texts and the messages that start or cancel a round of advantages.
- The GRPO round, the authorization code and the multiplier state are values in a map
  rather than objects of their own, so aliases to them are not modelled.
- The database, the job distributor, log lines and job metrics around the queue; a finished
  job keeps one note, its error or its result.
- JobQueue.JobQueue.Submit: asks for a fresh id, as the submission handler draws one at
  random; `JobQueue.SubmitKeepsIff` says what happens otherwise.
- Client registration, scope checks at validation, and expiry timestamps in responses.
- The trimming of a transfer's memo; compute score, rate and hours enter a credit
  calculation as their product.
- Transfer hashes, the signed ledger and balances themselves: a balance is an argument, and
  nothing is claimed about its conservation.
- Reported figures of the multiplier engine that are rounded for display, `reliability_score`
  and the statistics.
- Ring all-reduce, dashboards, HTTP routes, tunnels and process control.
