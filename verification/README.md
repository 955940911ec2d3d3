# MORF: verified models of the job queue, pattern attribution, limiters and scanners

MORF scans mobile application packages for secrets. This project models, in Dafny, the parts of it
whose correctness is not visible in any single function, and proves what they promise.

**The Redis job queue** (`Redis`, `QueueMachine`, `QueueConservation`, `QueueCopies`, `QueueOrder`,
`QueueRecovery`, `QueueWorkers`, `DeadLetters`, `StatusSets`, `StatusExact`, `JobQueue`). Redis is one
state: lists, sets, hashes and leases. Each command or Lua script is one atomic step; operations made of
several commands (requeue, reaper sweep, dead-letter retry) keep a program counter between them. Any
number of producers, workers, reapers and retriers interleave, replies get lost, clients crash, and
workers are not trusted. The theorems are about every run: conservation of job IDs, first-in first-out
order, the admission bound, recovery of a dead worker's list exactly once, what a worker that heartbeats
in time can rely on, fencing by leases, and accounting for dead-lettered jobs. `JobQueue` holds the
operations as methods on a mutable store, proved against the same commands; the operations made of
several commands are shown to be runs of the concurrent system (`JobQueues.ReapIsRun`,
`JobQueues.RequeueIsRun`, `JobQueues.RetryIsRun`). `StatusSets` and `StatusExact` take the operations one
at a time and give the exact conditions under which the status sets agree with the job hashes, and under
which they are complete.

**The job hash codec** (`ScanJobs`, `Timestamps`, `Text`). `ToMap`, the additive `HSET` and `FromMap`
as a round trip, down to the decimal and RFC 3339 text of each field (section 5.6 of RFC 3339).

**Pattern attribution** (`Regexes`, `RegexMeaning`, `RegexBacktrack`, `Attribution`, `Findings`).
Regular expressions with numbered capture groups under leftmost-first matching: what they match is what
they mean, and what they prefer is what backtracking finds first. One alternation built from hundreds of
patterns names, by group number, the pattern that a search one by one would have found.

**Limiters and the key cache** (`TokenBuckets`, `IpLimiter`, `KeyLimiter`, `KeyCache`). The sharded,
evicting per-IP limiter against a bucket that is never evicted; the double-checked per-key limiter; the
TTL cache of API keys as an interleaving of lookups, reads, stores, invalidations and database changes.

**Two scanners** (`Manifest`, `ManifestTree`, `MachO`). The indentation-driven component extractor
against a tree of elements, and the printable-run extractor of the Mach-O reader.

`dafny verify dfyconfig.toml` checks the whole project.

## Where the code does not do what its comments say

The models follow the code.

- `morf/queue/queue.go:526-529` and `577-580` say that a job is in the main queue or in exactly one
  processing list. The worker's retry path (`morf/worker/worker.go:1269-1275`) pushes a job before
  acking it, so it is in both (`QueueCopies.WorkerRetryTwoPlaces`). The claim holds of a run exactly
  when each publication of the job, a push included, comes while no copy of it is live
  (`QueueCopies.OnePlaceIff`).
- `morf/queue/queue.go:105-106` promises that a crash cannot leave a job in the queued set without it
  being on the queue, because one script does both. That is so of the script. Over whole runs a job can
  still end up filed as queued with no copy in the queue, a list or a hand
  (`QueueCopies.FiledWithoutCopy`): `morf/worker/worker.go:1272-1275` files it and does not look at the
  error of its push before the job is acked. It happens exactly when a job without a copy is filed, or
  the last copy of a filed job is acked or lost (`QueueCopies.QueuedReachableIff`).
- `reapWorker` deletes a registration even when a requeue failed. What a failed LREM left in the list
  then stays there for ever (`QueueRecovery.FailedRequeueStrands`, `QueueRecovery.ForgottenForever`).
- `RetryDLQJob` republishes under the `id` field of the hash it reads. A hash recreated after its
  expiry, by a late phase write, has none, and the empty ID is published
  (`DeadLetters.RetryLosesIdentity`); retries keep IDs exactly when the hashes they load carry them
  (`DeadLetters.RetriesKeepIdentityIff`).
- `EnqueueJobAtomicWithLimit` bounds the queue exactly when callers count at least one job
  (`QueueOrder.AdmissionIff`).
- `InvalidateAPIKeyCache` is said to take effect on the next request. A row read before it and stored
  after it is served again, also for a revoked key (`KeyCache.RevokedKeyServed`);
  `KeyCache.InvalidationIff` gives the exact condition.
- Evicting an idle visitor resets its bucket; that is invisible exactly when rps * idle >= burst
  (`IpLimiter.EvictionInvisibleIff`). The defaults (5 per second, burst 10, 10 minutes) satisfy it.
- `extractComponentBlocks` matches tags by prefix, so `activity` also collects `activity-alias`
  elements (`ManifestTree.AliasCollected`); it returns those of the very tag exactly when no named
  element has a longer one (`ManifestTree.ExtractsTagIff`). A component nested in one of its own kind
  cuts the outer block short (`ManifestTree.WholeIff`).
- `UpdateJob` files a job whose hash it did not find in no status set
  (`StatusExact.UnknownUpdateUnfiled`). `StatusExact.ExactIffKept` says, operation by operation, exactly
  when the sets list every job that is not dead under its status and no other.
- A token bucket that sees an earlier clock reading counts the time since then again, so readings that
  arrive out of order let more than burst + rate * time through, however small the step back
  (`TokenBuckets.BackwardAdmitsMore`). That bound holds exactly for readings in order, or a burst below
  two (`TokenBuckets.PlainBoundIff`); `TokenBuckets.WindowBound` adds what the steps back cost.

## Model

| member | source | states |
|---|---|---|
| `QueueConservation.Conservation` | morf/queue/queue.go:537-588 | In every interleaving of all clients, with lost replies and crashes, the published job IDs are exactly, as a multiset, the main queue, all processing lists, IDs in a requeuer's hand, acked ones, cancelled ones and those lost between LREM and RPUSH. |
| `QueueConservation.WorkerConservation` | morf/queue/queue.go:537-588 | Per worker: everything it ever popped is in its list, in a hand that took it from there, acked, requeued or lost, and counted once. |
| `QueueConservation.NeverDuplicated` | morf/queue/reaper.go:67-79 | With any number of reapers, late acks and producers, live copies of an ID never exceed its publications. |
| `QueueCopies.OnePlaceIff` | morf/queue/queue.go:526-559 | In every run, with all clients and faults, a job is never in two places, queue, processing lists and hands taken together, if and only if each publication of it comes while no copy is live: a guard its publisher can check. |
| `QueueCopies.OnePlace` | morf/queue/queue.go:526-559 | A single live copy means at most one of the queue, any two workers' lists and any requeuer's hand has the job. |
| `QueueCopies.WorkerRetryTwoPlaces` | morf/worker/worker.go:1269-1275 | The counterexample without that guard: enqueue, pop and the worker's push leave the job in the queue and in the worker's list. |
| `QueueCopies.StepLive` | morf/queue/queue.go:110-211 | In every reachable state, each step changes the number of live copies by exactly its publication, less its ack, loss or cancel. |
| `QueueCopies.QueuedReachableIff` | morf/queue/queue.go:100-116 | At every moment of a run each member of the queued set has a copy in the queue, a list or a hand, if and only if nobody files a job without a copy and nobody acks or loses the last copy of a filed job; publishing and cancelling never break it. |
| `QueueCopies.FiledWithoutCopy` | morf/worker/worker.go:1269-1275 | An input: enqueued as queued, popped and acked, a job stays in the queued set with no live copy. |
| `QueueConservation.StepAccounted` | morf/queue/queue.go:110-211 | Every step of every client keeps both accounts, the total and each worker's, for every ID. |
| `QueueOrder.FirstInFirstOut` | morf/queue/queue.go:501-547 | Over every history, all pops followed by the current queue are the appends in order, missing exactly the entries taken out by successful cancels. |
| `QueueOrder.AdmissionBound` | morf/queue/queue.go:131-145 | In every interleaving of limited producers (one limit, count at least 1) with all other clients, the queue is never longer than the limit plus the appends that passed no check. |
| `QueueOrder.RejectionLeavesNoTrace` | morf/queue/queue.go:324-353 | A rejected admission can be struck from any run, whatever follows, without a difference to the final state. |
| `QueueOrder.AdmissionIff` | morf/queue/queue.go:131-145 | For every positive limit and every count: the depth stays within the limit plus the unchecked appends in all runs whose admissions use them, if and only if the count is at least one. |
| `QueueOrder.ZeroCountOverflows` | morf/queue/queue.go:131-145 | For every positive limit, limit + 1 producers that count zero or fewer jobs are all admitted. |
| `QueueWorkers.ListInPopOrder` | morf/queue/queue.go:537-547 | Over every run, whatever the other clients do: a worker's processing list is its pops in the order it made them, less what was taken out. |
| `QueueWorkers.JudgedIff` | morf/queue/reaper.go:130-152 | After every run: a reaper goes after a worker if and only if the worker has a name, is registered, and the heartbeat it wrote last is readable and at least staleAfter old. |
| `QueueWorkers.HeartbeatProtects` | morf/queue/reaper.go:130-152 | A worker whose last heartbeat is never overdue when a reaper asks is never judged dead, and no reaper sweeps its list or holds a job of it, in any interleaving. |
| `QueueWorkers.ListIsOwn` | morf/queue/reaper.go:130-181 | Of such a worker, if nobody calls RequeueProcessing on it: its list is exactly its own pops less its own acks, whatever the others do. |
| `QueueWorkers.RegistrationIsLast` | morf/queue/reaper.go:137-148 | What Redis holds for a registered worker is what that worker wrote last. |
| `QueueRecovery.HeldCopySurvives` | morf/queue/reaper.go:67-79 | Whatever other workers ack and reapers do to others, the copies of a job in a worker's list stay until that worker acks it or is itself judged or requeued. |
| `QueueRecovery.SweepDrains` | morf/queue/reaper.go:130-181 | Once a reaper has judged a silent worker dead, with any other clients interleaved, the worker's list is covered by what the reaper still has to do, or empty. |
| `QueueRecovery.DeadWorkerRecovered` | morf/queue/reaper.go:109-181 | With any number of reapers interleaved, some at work on the worker already, and no faults: the dead worker's list ends empty, and its entries and the jobs of it then in hands have each been pushed back once or are still in a hand. |
| `QueueRecovery.RecoveredExactlyOnce` | morf/queue/reaper.go:109-181 | So with no such job in a hand before and after, each entry has been pushed back exactly once. |
| `QueueRecovery.FailedRequeueStrands` | morf/queue/reaper.go:154-181 | For every list and every pattern of failures in an uninterrupted sweep: what stays in the list is exactly what a failed LREM left, what reaches the queue exactly what was requeued, in order; the list is emptied if and only if no LREM failed, and all jobs are back if and only if nothing failed. |
| `QueueRecovery.ForgottenForever` | morf/queue/reaper.go:109-148 | From there on, over every run in which the worker is silent, the list stays exactly as it is. |
| `DeadLetters.DeadLetterConservation` | morf/queue/queue.go:155-178 | With any number of concurrent retriers, MoveToDLQ calls equal list entries plus removals in hand plus republishes plus retries given up: one dead-lettering yields at most one republish. |
| `DeadLetters.RetriesKeepIdentityIff` | morf/queue/queue.go:839-861 | Over every run: no retry is ever about to publish another ID than the one it took off the list, if and only if every hash a retry loads carries that ID. |
| `DeadLetters.RepublicationTraced` | morf/queue/queue.go:839-861 | What a retry publishes is what it read in one earlier load of the hash of the job it took off the list. |
| `DeadLetters.RetryLosesIdentity` | morf/queue/queue.go:839-861 | A run that publishes the empty ID in place of the job's: dead-lettered, hash recreated by a phase write, retried. |
| `DeadLetters.LeaseFences` | morf/queue/queue.go:451-499 | Over every run with leases set, cleared and expiring: a worker is rejected if and only if a different worker, with a name, has set the lease last and it has not ended since. So the latest setter never is, and a superseded worker always is while the lease lasts. |
| `StatusSets.StepIff` | morf/queue/queue.go:633-688 | One operation keeps the status sets in agreement with the hashes if and only if it is clean, a condition on the state before the call. |
| `StatusSets.ConsistentIffClean` | morf/queue/queue.go:110-211 | Over whole runs of operations: sets and hashes agree after every operation if and only if every operation was clean when called. |
| `StatusSets.DisciplinedRunTidy` | morf/queue/queue.go:633-712 | Every run that publishes fresh IDs, marks jobs failed before MoveToDLQ and leaves dead jobs alone until retried keeps each ID in at most one set, the one its hash names, and dead jobs in none. |
| `StatusExact.StepExactIff` | morf/queue/queue.go:633-712 | From exact sets (a job is in a set if and only if its hash has that status and it is not dead), each operation leaves exact sets if and only if its own condition on the state before it holds. |
| `StatusExact.ExactIffKept` | morf/queue/queue.go:110-211 | Over whole runs of operations, in any order and under any IDs: the sets are exact after every operation if and only if every operation met its condition when called. |
| `StatusExact.DisciplinedSetsExact` | morf/queue/queue.go:633-712 | So with updates only of jobs that exist, besides that discipline, the sets are exact after every run. |
| `StatusExact.UnknownUpdateUnfiled` | morf/queue/queue.go:633-688 | An input without it: updating a job without a hash leaves it with a status and in no set. |
| `StatusSets.ReclassifyMembers` | morf/queue/queue.go:664-688 | Exactly who is in each status set after UpdateJob's set bookkeeping, terminal statuses included. |
| `JobQueues.JobQueue.EnqueueJobAtomic` | morf/queue/queue.go:285-305 | The job is at the queue's tail and in the set of its status, its hash reads as the job merged into what was there if and only if its timestamps fit their text, and every other hash, set membership and list is as before. |
| `JobQueues.JobQueue.EnqueueJobAtomicWithLimit` | morf/queue/queue.go:324-353 | Full if and only if limit > 0 and depth + count exceeds it; full changes nothing; otherwise the job is published; a queue within the limit stays within it. |
| `JobQueues.JobQueue.PopJobReliable` | morf/queue/queue.go:537-547 | No job if and only if the queue is empty, and then nothing changes; otherwise the old queue is the returned job followed by the new queue, the worker's list has it at its end, and every other list and all else stay. |
| `JobQueues.JobQueue.AckJob` | morf/queue/queue.go:553-559 | The worker's list loses its first copy of the job if it has one and is otherwise unchanged; every other list, the queue and all else stay; counts of every ID follow. |
| `JobQueues.JobQueue.RequeueProcessing` | morf/queue/queue.go:565-588 | A copy the worker has moves to the queue's tail; a copy it does not have changes nothing; queue and list together keep every ID's count. |
| `JobQueues.JobQueue.UpdateJob` | morf/queue/queue.go:633-688 | Membership of every set afterwards in terms of the status the hash had before, finished jobs leaving the queued and processing sets; the hash reads as the job merged into what was there; nothing else changes. |
| `JobQueues.JobQueue.GetJob` | morf/queue/queue.go:591-616 | Not found if and only if there is no hash; otherwise the decoded job. |
| `JobQueues.JobQueue.MoveToDLQ` | morf/queue/queue.go:696-712 | The job is at the head of the list and out of the queued, processing and failed sets; every other membership, all hashes and lists stay. |
| `JobQueues.JobQueue.SetJobLease` | morf/queue/queue.go:455-462 | The job is leased to the worker; no other lease and nothing else changes. |
| `JobQueues.JobQueue.CheckJobLease` | morf/queue/queue.go:464-491 | Turns a worker away if and only if a lease names another one. |
| `JobQueues.JobQueue.ClearJobLease` | morf/queue/queue.go:493-498 | The lease is gone; no other lease and nothing else changes. |
| `JobQueues.JobQueue.RetryDLQJob` | morf/queue/queue.go:818-861 | Succeeds if and only if the job is on the list and has a hash; a job not on the list changes nothing; if the hash names the job, it is off the list, at the queue's tail, filed as queued, and reads, field by field, as queued with zero retries and no worker, error, start time or failure time, its other fields and all else unchanged. |
| `JobQueues.JobQueue.CancelJob` | morf/queue/queue.go:871-905 | Succeeds if and only if the hash says queued or processing; not found if and only if there is no hash; a failure changes nothing; a success writes three fields, moves the job to the cancelled set only, and takes one copy off the queue if it was queued. |
| `JobQueues.JobQueue.ReapWorker` | morf/queue/reaper.go:130-181 | An uninterrupted reap of a stale worker leaves old queue ++ old list in order, an empty list and no registration; any other worker is left alone. |
| `JobQueues.JobQueue.ReapOnce` | morf/queue/reaper.go:109-127 | Page after page of SCAN, the sweep over all scanned workers in order. |
| `JobQueues.ReapIsRun` | morf/queue/reaper.go:130-181 | The uninterrupted reap is a run of the concurrent system, command by command. |
| `JobQueues.RequeueIsRun` | morf/queue/queue.go:565-588 | So is RequeueProcessing, whether or not the worker has the job. |
| `JobQueues.RetryIsRun` | morf/queue/queue.go:818-861 | And RetryDLQJob, whether or not the job is on the list and has a hash. |
| `JobQueues.SweptWorker` | morf/queue/reaper.go:109-181 | What a sweep does to each worker, stale or not, however often SCAN repeats a key; the old queue stays a prefix. |
| `JobQueues.SweptConserves` | morf/queue/reaper.go:109-181 | A sweep neither loses nor duplicates any ID over queue and lists. |
| `JobQueues.SweepRecoversAll` | morf/queue/reaper.go:109-127 | If SCAN reports every registration, no stale worker stays registered and no job stays in a stale worker's list. |
| `ScanJobs.SaveThenRead` | morf/models/ScanJob.go:76-226 | For any earlier hash, saving a job and reading back yields every mutable field, cleared ones included, creation-time fields from the job when given and otherwise the old ones, the phase untouched; if and only if its timestamps fit their text. |
| `ScanJobs.RetriedJobReadsReset` | morf/queue/queue.go:839-858 | Whatever its hash held, a retried job reads back as queued, with zero retries, no worker, no error, no start time and no failure time, and every other field as the dead job's. |
| `ScanJobs.PhaseReadsBack` | morf/queue/queue.go:714-724 | After a phase write, whatever the hash held, readers see the new phase and every other field as before. |
| `ScanJobs.CancelReadsBack` | morf/queue/queue.go:195-211 | After a cancel readers see the cancelled status, its message and its time to the second, and every other field as before. |
| `ScanJobs.FieldsAt` | morf/models/ScanJob.go:76-128 | Which text ToMap writes under each key, and which keys it leaves out. |
| `ScanJobs.ToMap` | morf/models/ScanJob.go:76-128 | Written over any hash, the returned map reads back as the job merged into what was there, if and only if the job's timestamps fit their text. |
| `ScanJobs.Receiver.FromMap` | morf/models/ScanJob.go:131-226 | Into a blank receiver, a hash over which a job was saved reads as that job merged into what was there; in general each field is taken when present and readable and otherwise kept. |
| `ScanJobs.ReadJobFits` | morf/models/ScanJob.go:131-226 | Any job read from a hash has timestamps that fit their text again. |
| `Timestamps.RoundTripIffRepresentable` | morf/models/ScanJob.go:63-68 | A timestamp survives formatting and parsing to the second if and only if its year has at most four digits and its zone offset is in whole minutes. |
| `Timestamps.TextLayout` | morf/models/ScanJob.go:63-68 | Which characters of the text are which field, as section 5.6 of RFC 3339 lays them out. |
| `Text.ScanFormatted` | morf/models/ScanJob.go:186-194 | Every 64-bit integer survives being stored as text and scanned back. |
| `Attribution.BuildCombinedRegex` | morf/detect/detect.go:304-343 | The loop builds the alternation of the compilable patterns and a table with one owner per capture group of it, plus group 0. |
| `Attribution.UnionHead` | morf/detect/detect.go:304-343 | At each position the alternation matches if and only if some pattern does; its preferred match ends where the lowest-numbered such pattern's does, and every group that took part belongs to that pattern. |
| `Attribution.CombinedAgrees` | morf/detect/detect.go:349-384 | On every text, from every position: the combined expression matches if and only if some compiled pattern does, at the leftmost such position, with the span its owner alone would find, the owner being the lowest-numbered pattern there. |
| `Attribution.OwnerFindsSame` | morf/detect/detect.go:349-384 | The owner, searched on its own, finds that very match. |
| `Regexes.MatchesAdd` | morf/detect/detect.go:320-335 | Matching an expression numbered from b only ever adds groups b to b + NumSubexp - 1 and forgets none. |
| `Regexes.MatchesEnds` | morf/detect/detect.go:320-335 | Renumbering groups changes neither what is matched nor in which order of preference. |
| `RegexMeaning.MatchesAre` | morf/detect/detect.go:304-343 | For every expression, loops over empty matches included: the matcher gets from a position to another if and only if the expression accepts the text between them, acceptance being defined by the structure of the expression alone. |
| `RegexMeaning.FoundIffAccepted` | morf/detect/detect.go:349-384 | A search finds a match at a position if and only if the expression accepts some stretch of text from there, and what it finds is such a stretch. |
| `RegexMeaning.GreedyAndLazy` | morf/detect/detect.go:304-343 | Of the ways to repeat a character class, a greedy loop prefers the longest and a lazy one the shortest. |
| `RegexBacktrack.TryIs` | morf/detect/detect.go:304-343 | A backtracking engine, whatever is to be matched behind an expression, finds the first in order of preference of the matches after which the rest matches too. |
| `RegexBacktrack.MatchAtBacktracks` | morf/detect/detect.go:349-384 | So the match found at a position, its end and the spans of its groups, is the one backtracking finds first: the leftmost-first rule of the regexp package. |
| `Findings.BuildCache` | morf/detect/detect.go:304-343 | The published snapshot is consistent, and has a combined expression if and only if one could be built and compiled. |
| `Findings.FindMatchingPattern` | morf/detect/detect.go:349-384 | With a combined expression, the pattern found by searching the patterns themselves leftmost-first; without, the first that matches; failing that, the first only ripgrep can run. |
| `Findings.OwnerOf` | morf/detect/detect.go:353-364 | The submatch loop returns the owner of the match. |
| `Findings.FindAllCovers` | morf/detect/detect.go:430-435 | Every position where an expression matches starts a reported span or lies strictly inside one, unless its match is empty and right behind a reported span. |
| `Findings.NoMatchDropped` | morf/detect/detect.go:388-456 | Where some compiled pattern matches, the combined expression reports a span starting there or with the position strictly inside, unless the preferred match there is empty: secrets packed side by side are all reported. |
| `Findings.FindingsForLine` | morf/detect/detect.go:402-486 | Never empty; one finding per span in order, with the name, confidence and MASVS ID of its span's pattern, the file and line, and the value extracted from the span or, if that is blank, the span; the spans are the combined matches, each with the lowest-numbered pattern matching at its start, or without a combined expression the single patterns' matches; with no span, one best effort, attributed in the same way or as unattributed with low confidence. |
| `Findings.CombinedFindings` | morf/detect/detect.go:434-452 | The combined loop: one finding per match, in order, every field as said of its owner and span. |
| `Findings.FallbackFindings` | morf/detect/detect.go:457-470 | The pattern-by-pattern loop: one finding per match of each compiled pattern, every field as said of that pattern and span. |
| `Findings.SingleSpansAre` | morf/detect/detect.go:457-470 | Its spans are exactly the matches of the compiled patterns, ordered by pattern. |
| `Findings.MakeFinding` | morf/detect/detect.go:404-428 | Name, confidence and MASVS ID are the pattern's, or say unattributed and low; file and line are kept; the value is what is extracted from the span unless that is blank, then the span; a piece of the span, non-blank whenever the span is. |
| `Findings.ExtractSecret` | morf/detect/detect.go:736-764 | Always a contiguous piece of its input. |
| `Findings.ExtractedIs` | morf/detect/detect.go:736-764 | For every content: what stands between the first > and the last <, trimmed, if anything does; else what stands between the first two quotes; else what follows the last colon, trimmed; else the content. |
| `Text.TrimmedAt` | morf/detect/detect.go:742-759 | Trimming cuts white space and only white space at both ends, and leaves none there. |
| `IpLimiter.EvictionInvisibleIff` | morf/router/middleware.go:133-183 | The evicting limiter decides like one bucket per IP kept for ever, on every timed sequence of requests and single shards being swept, requests between the shards of a pass included, if and only if it is off or rps * idle >= burst. |
| `IpLimiter.SameDecisions` | morf/router/middleware.go:133-162 | The invariant behind it, from any agreeing states: an evicted bucket has refilled, and a refilled bucket answers like a new one. |
| `IpLimiter.Visible` | morf/router/middleware.go:146-162 | Otherwise a request sequence on which the two differ. |
| `IpLimiter.ClientAdmittedIff` | morf/router/middleware.go:133-183 | On every timed sequence of requests and sweeps with rps * idle >= burst: a client's request is admitted if and only if every window of its own requests ending with it then holds at most burst + rps * time, so no client is refused within the bound or let through beyond it, whatever the others do. |
| `IpLimiter.NewConfig` | morf/router/middleware.go:83-106 | The rate is kept, a burst below 1 becomes 10 and an idle time that is not positive 10 minutes; other values are kept. |
| `IpLimiter.RateLimiter.constructor` | morf/router/middleware.go:83-116 | A new limiter has clamped settings, 32 shards and no visitor. |
| `IpLimiter.RateLimiter.ShardFor` | morf/router/middleware.go:120-131 | The in-place 32-bit FNV-1a loop yields the IP's shard, always in range. |
| `IpLimiter.FnvOfA` | morf/router/middleware.go:120-131 | The hash has the published FNV-1a value at the text "a". |
| `IpLimiter.RateLimiter.Request` | morf/router/middleware.go:133-183 | Sharding is invisible: decision and visitor table are those of one unsharded table, the visitor was last seen now, no other visitor changes, and each stays in its own shard only. |
| `IpLimiter.RateLimiter.ReapShard` | morf/router/middleware.go:146-162 | Under one shard's lock, with the cutoff fixed when the pass began: drops exactly the visitors of that shard last seen longer than the idle time before it. |
| `IpLimiter.RateLimiter.Reap` | morf/router/middleware.go:146-162 | A pass over all shards with nothing in between drops exactly the visitors idle for longer than the idle time. |
| `TokenBuckets.AdmittedFrom` | morf/auth/middleware.go:534-566 | Requests with any clock readings, in any order, admit at most the bucket's level plus what comes in while the readings move forward. |
| `TokenBuckets.WindowBound` | morf/auth/middleware.go:534-566 | Any consecutive requests whose readings span at most T admit at most burst + rate * (T + the total step back among them). |
| `TokenBuckets.BackwardAdmitsMore` | morf/auth/middleware.go:534-566 | For every rate, every burst of at least two and every step back up to an interval: requests within a time that accrues less than two tokens, all burst + 2 admitted. |
| `TokenBuckets.PlainBoundIff` | morf/auth/middleware.go:534-566 | For every rate and burst: requests whose readings lie within T and step back by at most beta in all admit at most burst + rate * T, if and only if beta is zero or the burst is below two. |
| `TokenBuckets.AdmittedIff` | morf/auth/middleware.go:534-566 | With readings in order: a request is admitted if and only if no window of requests ending with it would then admit more than burst + rate * time. Refusals are exact, and a refused request costs nothing. |
| `KeyLimiter.OneLimiterPerKey` | morf/auth/middleware.go:495-528 | In every interleaving of callers a key's limiter is never replaced. |
| `KeyLimiter.RunServes` | morf/auth/middleware.go:495-566 | In every reachable state a key's limiter has answered every request of that key and nothing else. |
| `KeyLimiter.KeyWindow` | morf/auth/middleware.go:495-566 | With 0 < n <= nanoseconds per hour, any consecutive requests of a key spanning at most T admit at most n + (T + the total step back of their clock readings) / interval. |
| `KeyLimiter.KeyWindowInOrder` | morf/auth/middleware.go:495-566 | So with readings in order, at most n + T / interval. |
| `KeyLimiter.KeyAdmittedIff` | morf/auth/middleware.go:495-566 | In every interleaving, for a key's requests with readings in order: admitted if and only if every window ending with the request then holds at most n + time / interval of its admissions. |
| `KeyLimiter.LimitAsked` | morf/auth/middleware.go:495-528 | The n of a key's limiter is the hourly limit that a caller asked for that key, 100 in place of one that is not positive. |
| `KeyLimiter.NoLimitAboveNanos` | morf/auth/middleware.go:523-524 | Above one request per nanosecond the interval rounds to zero and nothing is ever refused. |
| `KeyCache.RunSound` | morf/auth/middleware.go:276-302 | In every interleaving: rows in flight, cache entries and grants all stem from earlier database reads, entries expire a TTL after their store, and no invalidation lies between an entry's store and its use. |
| `KeyCache.ServedIff` | morf/auth/middleware.go:276-302 | An uninterrupted request is let through, once, if and only if the row it has to go by, the cached one within its TTL and the database's current one otherwise, is there, active and unexpired; past the TTL the cache then holds the database's row for another TTL, or nothing; other entries stay. |
| `KeyCache.BoundedStaleness` | morf/auth/middleware.go:58-78 | Every request let through relied on a row the database held when read, active and unexpired by that row now, and read less than TTL plus the read-to-store delay earlier. |
| `KeyCache.InvalidationTakesEffect` | morf/auth/middleware.go:313-315 | With no still valid row of the key in flight, every later request let through relies on a row read after the invalidation. |
| `KeyCache.InvalidationIff` | morf/auth/middleware.go:304-315 | An invalidation takes effect for every later cached answer if and only if no request holds a still valid row of the key that it has read and not yet stored. |
| `KeyCache.RevokedKeyServed` | morf/auth/middleware.go:276-315 | A run in which a key is revoked and invalidated between a request's read and store: the next request is let through on the active row while the database holds the revoked one. |
| `Manifest.ExtractComponentBlocks` | morf/apk/manifest_parser.go:782-873 | The index loop with its step back terminates and computes what a single pass, one line at a time, computes. |
| `Manifest.ContainsIff` | morf/apk/manifest_parser.go:825-870 | A block mentions a text if and only if the text stands at some position of it. |
| `ManifestTree.ExtractsPieces` | morf/apk/manifest_parser.go:782-873 | From any text that dumps a manifest tree, blank lines and trailing blanks aside, it returns in document order the block of every matching element under application that mentions a name, and nothing else. |
| `ManifestTree.ExtractsComponents` | morf/apk/manifest_parser.go:782-873 | If no matching element is nested below a child of application, exactly the full lines of each named matching child. |
| `ManifestTree.ExtractsTagIff` | morf/apk/manifest_parser.go:824-836 | For every manifest: the result is the named blocks of exactly the elements with the tag asked for, if and only if no named element under application has a longer tag that starts the same. |
| `ManifestTree.AliasCollected` | morf/apk/manifest_parser.go:824-836 | A manifest with one activity and one activity-alias: asked for activities, the scanner returns both. |
| `ManifestTree.WholeIff` | morf/apk/manifest_parser.go:836-862 | A block is the element's whole dump if and only if no element with the same tag prefix is nested in it. |
| `ManifestTree.ScanForest` | morf/apk/manifest_parser.go:824-862 | Scanning any forest of elements from any scanner state: what is saved, what stays open, and at which depth. |
| `ManifestTree.FeedLine` | morf/apk/manifest_parser.go:876-878 | An indented line is read as its indentation and its text. |
| `MachO.SplitNulStrings` | morf/ios/macho.go:212-237 | Exactly the maximal printable runs of at least four bytes, each once and in order; so every printable stretch that long lies inside some output. |

## Left out

- Redis networking, timeouts, the circuit breaker and SCAN paging: a failed command is a step without effect, a lost reply a step of its own, a SCAN a given list of pages.
- Key expiry: a step of its own in the concurrent model, for hashes and leases; left out of `StatusSets`, whose claims are for operations taken one at a time.
- Interleavings inside UpdateJob and CreateJob for the status sets: their commands are separate steps in the concurrent model, where only the list and hash theorems apply.
- TrimTerminalStatusSets, the webhook dead-letter list, queue statistics and listings.
- The worker package beyond the commands it sends: workers issue any command at any time.
- The `trace_context` field of a job hash.
- Timestamps.RoundTripIffRepresentable: texts with fractional seconds and the other forms accepted by the general parser are not modelled as input; no save writes them.
- Text.ScanFormatted: `fmt.Sscanf` skips more kinds of white space than blanks and tabs, which no save writes.
- Attribution.BuildCombinedRegex: patterns are syntax trees, so effects of joining their texts (an unterminated quotation, flags, repeat limits) appear only as whether the union compiles, a parameter.
- Regexes.MatchesEnds: characters have width one; byte offsets into UTF-8 and case folding are not modelled.
- Loading, validating and caching the pattern files, platform filters and SanitizeSecrets.
- IpLimiter.EvictionInvisibleIff: tokens and times are reals, so floating-point rounding is not modelled, and looking a visitor up and asking its bucket happen at one instant.
- Changing the cache TTL while the server runs.
- KeyCache.BoundedStaleness: usage records and scope checks are not part of a grant.
- ManifestTree.ExtractsPieces: one application element, directly under the root, and attribute lines that do not start like an element; other texts are covered by `Manifest.ExtractComponentBlocks` only.
- Parsing of the blocks into components, intent filters and attributes.
- Mach-O headers, sections and imported libraries; only the string extractor is modelled.
- HTTP handlers, artifact storage, database persistence, cryptography, risk scoring, reports and the user interface: these either depend on systems outside the repository or hold no state whose invariants are at stake.
