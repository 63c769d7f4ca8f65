# SmartParallel: a verified model of its core

This project models the parts of SmartParallel that other code has to trust blindly, and proves what they promise:

* the thread pool whose callers help with their own loop regions,
* the resource governor that hands out worker permits, and the leases built on it,
* the JSON codec of execution profiles and the profile database on top of it,
* the admission of runtime operations to the governor,
* chunked and vectorised image thresholding.

`dafny verify dfyconfig.toml` checks everything.

## How it is modelled

**Thread pool** (`PoolQueue`, `PoolModel`, `PoolInvariant`, `PoolSteps`, `PoolFrames`, `PoolWakeups`, `PoolTheorems`, `Chunks`).
The locked sections of the pool are methods of the class `ThreadPool`, each proved equal to a function on the guarded fields.
`PoolModel` composes those functions into an interleaved step system: any number of worker and outside threads, each with a stack of
frames (a running job, a call of `execute_visible_work_helping`, a call of `wait`, a submit or a destructor between its unlock and
its notifications), one step per critical section, atomic access, notification or return of user code. User code is arbitrary: it may
nest, submit, wait, cancel the work of any region, return or throw. Every helping call is a region; regions nest to any depth and know
the region whose callback called them. The work a call receives may be partly consumed, cancelled or failed already. A helper is told to
stop by the cancellation test of `try_acquire` and takes its chunk in a second step, and storing an exception and cancelling the work are
two steps, so anything may fall between them. Jobs are numbered as they are accepted. Worker loops sleep on `condition_` and are woken one
at a time by submissions, all together by the destructor, or by chance.

The invariant explains every counter by the frames that are alive: a weight assigns each frame its share of `active_jobs_`, of
`busy_workers_`, of the `remaining` of a region, of the executions of a chunk and of each numbered job, and the counters are the sums. What the model shows
about the code along the way: a helper run by the owner that waits never executes a chunk, because the owner leaves its own loop only
when the work is exhausted or cancelled; and a thread that is not a worker never runs user code inside a pool job,
which is why submissions after `stop_` cannot come from outside. A blocked owner waits for a strict descendant of its region, except
through a `wait` in a callback, which runs jobs that have nothing to do with the region it was called in (`BlockedWaitsOnYounger`).

**Governor** (`GovernorModel`, `GovernorInvariant`, `GovernorTheorems`, `Governor`, `Leases`).
`Governor.GovernorState` runs the locked functions as the source does, in place and loop by loop. Every method hands out the
micro-steps it performed, and every micro-step is a step of the relation `GovernorModel.Apply`; results about whole runs are proved
about sequences of such steps, so they hold for any interleaving of lock scopes. A request is known by its sequence number; `log` keeps
what became of it; `overtaken` and `ahead` are history variables. Cancellation tokens may be requested by other threads between any two
reads. `Leases` puts the trees of inherited leases on top: a node per lease control, with counted handles.
Two details of the code the model keeps: after a scan that grants nobody, cancelled entries stay in the queue until the next pass; and a
waiting request whose cancellation was already counted can still be answered `GovernorShuttingDown`.

Where documentation and code differ the model follows the code. `docs/v1.8/admission-policies.md` calls requests above the budget
impossible; the code asks only for what a request cannot do without (`ImpossibleMeansNeed`). `docs/v1.8/nested-leases.md` speaks of child
participation within the parent grant; the code bounds a nested operation by the root lease (`NestedBound`, `ChildMayExceedParent`).
`docs/v1.8/deadline-cancellation.md` has shutdown answer all pending requests `GovernorShuttingDown`; one that was granted before it
looked at the flag still gets its lease.

**JSON** (`Utf8`, `JsonGrammar`, `JsonReader`, `JsonLexis`, `JsonExact`, `JsonPrinter`, `JsonTheorems`, `JsonParser`).
`JsonGrammar` states the grammar of RFC 8259, sections 2 to 7, independently of the parser, as concrete syntax trees with a text and a
meaning; `Utf8` states the octet sequences of RFC 3629, section 4. The class `JsonParser.JsonParser` has the source's position and loops,
and each method is proved to compute a function of `JsonReader`; those functions are proved to accept exactly the grammar within the
limits. Nesting is limited where values start: 64 arrays or objects around a value are accepted, and a 65th only if it is empty.
Bytes are numbers below 256; the masks and shifts of the source are matched to this arithmetic by lemmas on bit-vectors.

**Profiles** (`Schema`, `ProfileTables`, `Profile`).
A record is the sequence of its field values in key order, with a schema that lists key and kind of each; the tables list the fields the
source writes one by one. The digest, `strtod` and the printing of doubles are parameters (`Codec`, `Doubles`), constrained by
`CodecOk`: digests are short ASCII texts, whole numbers are read by `strtod`, and every finite double is printed as a number of the
grammar. That a printed double reads back is not assumed, because it is not so for all: an exact decimal text of a subnormal double is read
without a range error, while its digits as printed again are refused for one. Such a database loads and is intact, but what is saved from it
does not load; `SavedReloads` and `LoadedReloads` say that this is the only way a reload can go wrong, besides size and version.
A profile file whose resource contract lacks `preferred_workers` or
`maximum_workers` is completed before its hash is compared, so it is accepted only if the hash was computed over the completed contract.

**Admission** (`Admission`). Options, plan selection and request construction are functions; the telemetry and the operation they update
are classes, and the root branch calls the governor of the model above.

**Thresholding** (`Kernels`, `Threshold`, `Interleaving`). Both images live in one array of bytes at given addresses and strides. The kernels are loops
over that array; vector registers are sequences of lanes. The specification is one function per byte (`Threshold.Wanted`).
`Interleaving` lets the loads and stores of all chunks' kernels interleave, piece by piece of 32, 16 or 1 pixels.
Sizes and addresses are 64 bits wide (`Arith.SIZE_MAX`); integers are unbounded, and lemmas say where a computation of the source could leave that range.
The guards of the vector loops are written with exact sums; `GuardIsExact` says when the 64-bit sums of the source agree with them, and
`GuardsCanWrap` gives a validated request (no real buffer is that large) where they do not.

Some lemmas use `hide` to keep function bodies out of a proof that does not need them.

## Model

| member | source | states |
|---|---|---|
| PoolQueue.ThreadPool.PushJob | src/thread_pool.cpp:152-167 | a job is refused exactly when the pool is stopping and the caller is not inside one of its jobs; otherwise it goes to the back of the queue and is counted as active |
| PoolQueue.ThreadPool.PopFront | src/thread_pool.cpp:56-92 | taking the oldest job changes nothing but the queue and, for a worker, the busy count |
| PoolQueue.ThreadPool.PopDependency | src/thread_pool.cpp:207-224 | finds a queued helper of the region whenever there is one and removes only the first of them |
| PoolQueue.ThreadPool.CancelJobs | src/thread_pool.cpp:241-264 | removes all helpers of one region and no other job, keeps the order of the rest, and takes exactly their number off the active count |
| PoolQueue.ThreadPool.FinishOneJob | src/thread_pool.cpp:169-177 | one job less is active, one worker less busy, and all waiters are notified |
| PoolQueue.WithoutCounts | src/thread_pool.cpp:241-264 | cancelling a region's helpers leaves every other region's helpers and all plain jobs in the queue |
| PoolQueue.WithoutIds | src/thread_pool.cpp:241-264 | each job of the queue either stays or is among the cancelled ones, exactly as often as it was queued |
| PoolQueue.FirstOfFindsCount | src/thread_pool.cpp:207-224 | the search for a dependency job succeeds exactly when one is queued |
| Chunks.SchedulerVisibleWork.TryAcquire | include/smart/execution/work_chunk.hpp:54-115 | chunks are handed out in order, each once, until the range is exhausted or the work cancelled |
| Chunks.ChunksPartition | include/smart/execution/work_chunk.hpp:54-115 | every iteration of the range lies in exactly one chunk, the last chunk being the short one |
| PoolTheorems.StepKeepsInv | src/thread_pool.cpp:50-319 | every step of every thread keeps the invariant that explains all counters, stacks, phases and sleepers |
| PoolTheorems.RunInv | src/thread_pool.cpp:50-319 | the invariant holds in every reachable state, for any number of workers and outside threads |
| PoolSteps.StepAbsorbs | src/thread_pool.cpp:152-319 | each step changes every conserved counter by exactly what it changes in the frames of its thread |
| PoolTheorems.PoolAccounting | src/thread_pool.cpp:19-264 | active jobs are the queued ones plus the live job frames, busy workers are the jobs on worker loops and at most as many as workers, and each thread's job depth is its number of job frames |
| PoolTheorems.EachJobOnce | src/thread_pool.cpp:50-281 | no job is lost, run twice or both run and cancelled: each accepted job is at every moment exactly one of queued, on the one stack that runs it, finished, or cancelled |
| PoolTheorems.RemainingIsExact | src/thread_pool.cpp:413-558 | at every moment `remaining` of a region is its queued helpers plus the unfinished ones plus those registered but not published plus those cancelled but not subtracted |
| PoolTheorems.NothingSaturates | src/thread_pool.cpp:169-558 | no saturating subtraction of the pool ever meets its guard |
| PoolTheorems.SafeReturn | src/thread_pool.cpp:477-579 | once a helping call has returned or rethrown no queued job and no frame of any thread can touch its work or callback again |
| PoolTheorems.ExactlyOnce | src/thread_pool.cpp:443-468 | the callback is started at most once per chunk at every moment; on normal return every chunk handed out was completed once and none threw, and these are all chunks the call received unless the work was cancelled on request |
| PoolTheorems.FailureIsReported | src/thread_pool.cpp:443-620 | the call returns normally exactly when no callback threw, every publication succeeded and the work came without an exception; nothing else cancels the work but a request |
| PoolTheorems.TopMoves | src/thread_pool.cpp:56-319 | a thread in the middle of something can step unless it sleeps on a completion or in `wait` |
| PoolTheorems.BlockedWaitsOnYounger | src/thread_pool.cpp:207-579 | a blocked owner has no helper left in the queue and waits for a thread inside one of its helpers, which if blocked itself is blocked on a region created later, and on a strict descendant unless that thread is executing jobs inside a `wait` |
| PoolTheorems.HelpingNeverDeadlocks | src/thread_pool.cpp:377-621 | in every reachable state with an unfinished region some thread inside the pool can step, or sleeps in `wait`; without calls of `wait` always the former |
| PoolTheorems.WaitMeansQuiet | src/thread_pool.cpp:283-319 | `wait` releases its caller only at a moment when the queue is empty and the caller's own job frames are the only live ones |
| PoolTheorems.NoLostWakeup | src/thread_pool.cpp:152-319 | a thread asleep in `wait` although its predicate holds has a submitter past its unlock whose own next steps wake everybody |
| PoolTheorems.SleepersAreSpare | src/thread_pool.cpp:56-167 | while a worker loop sleeps un-notified the queued jobs are at most as many as the loops awake and the submitters about to wake one, so a queued job always has a loop that can take it or a submitter about to notify |
| PoolTheorems.LoopMoves | src/thread_pool.cpp:56-92 | a worker loop that is awake always steps: takes a job, goes to sleep or leaves |
| PoolTheorems.StopWakesLoops | src/thread_pool.cpp:96-110 | after the stop flag a worker loop sleeps only while the destructor is between its unlock and `notify_all` |
| PoolTheorems.OutsideIsRefused | src/thread_pool.cpp:152-281 | after the stop flag no outside thread can make an empty queue non-empty |
| PoolTheorems.ShutdownDrains | src/thread_pool.cpp:56-281 | when the last worker loop has exited the queue is empty and every accepted job has finished once, was cancelled once, or is still being executed by an outside thread |
| GovernorModel.AdmittedFits | src/resource_governor.cpp:132-679 | an admitted request is grantable exactly when its need is free, gets its exact number or between its minimum and its request, and always fits the whole budget |
| Governor.Create | src/resource_governor.cpp:543-559 | a governor exists exactly for a positive budget within the process capacity and a non-negative age; it starts with nothing in use, a bypass limit of zero becoming one |
| GovernorModel.ImpossibleMeansNeed | src/resource_governor.cpp:645-672 | a well-formed request is impossible exactly when what it cannot do without exceeds the budget |
| Governor.GovernorState.EraseRemoved | src/resource_governor.cpp:140-146 | erasing keeps exactly the live entries, in order |
| Governor.GovernorState.CancelPending | src/resource_governor.cpp:148-156 | a request is cancelled and counted at most once |
| Governor.GovernorState.RemoveCancelled | src/resource_governor.cpp:158-166 | leaves a queue without removed or cancelled entries by legal micro-steps only |
| Governor.GovernorState.GrantOne | src/resource_governor.cpp:168-180 | permits, peak, leases and grants rise by the grant, and the request is granted |
| Governor.GovernorState.GrantOldest | src/resource_governor.cpp:199-208 | granting the front is a legal step |
| Governor.GovernorState.ReserveOldest | src/resource_governor.cpp:210-218 | the reservation is started and counted once |
| Governor.GovernorState.GrantBypassing | src/resource_governor.cpp:222-240 | a bypass grants the earliest live request behind the front that fits and charges the front |
| Governor.GovernorState.GrantWaiters | src/resource_governor.cpp:182-242 | terminates, performs only legal internal steps, and stops only shutting down, empty, with nothing available, at a reserved front that does not fit, or when no live request fits |
| Governor.GovernorState.Round | src/resource_governor.cpp:189-241 | a round either makes the queue shorter or settles |
| Governor.GovernorState.PastOldest | src/resource_governor.cpp:210-240 | past a front that does not fit: reserve it, or look for somebody to bypass it |
| Governor.GovernorState.Scan | src/resource_governor.cpp:222-240 | the scan grants the first live request that fits, or shows that none does |
| Governor.GovernorState.Examine | src/resource_governor.cpp:224-239 | one candidate of the scan: cancelled, passed over or granted |
| Governor.GovernorState.Admit | src/resource_governor.cpp:620-756 | acquire up to its answer or first wait: turned away for exactly the stated reasons, otherwise queued, with an answer that agrees with what happened to the request |
| Governor.GovernorState.Conclude | src/resource_governor.cpp:703-719 | after the first pass a request is cancelled, refused at once under the immediate policy, or goes on to wait |
| Governor.GovernorState.Head | src/resource_governor.cpp:721-756 | the head of the waiting loop answers only what is true of the request |
| Governor.GovernorState.Resume | src/resource_governor.cpp:721-756 | the same from a wake-up to the next wait |
| Governor.GovernorState.Leave | src/resource_governor.cpp:709-748 | a request that gives up leaves the queue, and nothing else changes but the counter of deadlines |
| Governor.GovernorState.CancelSelf | src/resource_governor.cpp:731-738 | a waiting request that finds its token requested is cancelled and counted |
| Governor.GovernorState.CollectLease | src/resource_governor.cpp:758-777 | the lease handed out holds the granted number, which lies in the range asked for |
| Governor.GovernorState.ReleaseLease | src/resource_governor.cpp:88-108 | a release gives back exactly the lease's permits |
| Governor.GovernorState.RequestShutdown | src/resource_governor.cpp:778-791 | only the flag changes |
| Governor.InternalOutcome | src/resource_governor.cpp:182-242 | a pass leaves a waiting request waiting, granted or cancelled |
| GovernorInvariant.StepKeepsInv | src/resource_governor.cpp:88-791 | every micro-step keeps tallies, queue order, exclusive reservations, grant ranges and the starvation potential |
| GovernorTheorems.PermitsConserved | src/resource_governor.cpp:88-777 | in every run the permits in use are the sum of live and uncollected grants and at most the budget, grants are releases plus live leases, cancellations are counted once each |
| GovernorTheorems.ReleaseNeverClamps | src/resource_governor.cpp:88-108 | the clamping branches of the destructor are unreachable |
| GovernorTheorems.OneOutcome | src/resource_governor.cpp:148-777 | a request has at most one outcome, in one order, with one number of workers |
| GovernorTheorems.LosersTakeNothing | src/resource_governor.cpp:148-749 | cancelling or withdrawing a request takes no permits, and the request is never granted afterwards |
| GovernorTheorems.OvertakenIsExact | src/resource_governor.cpp:182-242 | the history variable counts exactly the later arrivals granted while the request waits |
| GovernorTheorems.OvertakingsCounted | src/resource_governor.cpp:182-242 | over a run it counts them all |
| GovernorTheorems.BoundedStarvation | src/resource_governor.cpp:182-701 | a request that enters behind k live ones is overtaken at most (k + 1) times the bypass limit, over any run |
| GovernorTheorems.BypassWithinLimit | src/resource_governor.cpp:210-235 | no request is bypassed more often than the limit, and only the front holds a reservation |
| GovernorTheorems.ReservationFreezes | src/resource_governor.cpp:199-220 | while the reserved request waits a step grants nobody and permits only fall |
| GovernorTheorems.FrozenWhileReserved | src/resource_governor.cpp:199-756 | so does every run |
| GovernorTheorems.ReservedIsServed | src/resource_governor.cpp:199-208 | during a pass the reserved request stays, is granted what fits, or is cancelled by its own token |
| GovernorTheorems.ReservationSucceeds | src/resource_governor.cpp:199-672 | a pass that finds its need free grants the reserved request, and its need always fits the budget |
| Leases.HandleKeepsPermits | src/resource_governor.cpp:78-487 | while any handle of a tree lives its root's permits are counted, and every lease of the tree grants between one and the root's number |
| Leases.HeldHasHandle | src/resource_governor.cpp:78-487 | a lease still held has a live handle in its tree |
| Leases.ReleasedWithLastHandle | src/resource_governor.cpp:78-487 | a lease is released by exactly the step after which nothing of its tree is left, and that step drops a handle of the tree |
| Leases.ActionKeeps | src/resource_governor.cpp:78-777 | every action keeps the forest in order; dropping a handle is always possible |
| Leases.PlayKeeps | src/resource_governor.cpp:78-487 | so the forest is in order after every run |
| Leases.RootOf | src/resource_governor.cpp:472-487 | along a chain of inherits grants never grow and stay at least one |
| Leases.InheritTakesNoPermits | src/resource_governor.cpp:472-487 | inheriting leaves the governor as it is and respects the limit asked for |
| Utf8.EncodeIsUtf8 | src/profile.cpp:156-177 | the encoder writes a well-formed character of RFC 3629 for every scalar value, and the right one |
| Utf8.DecodeIsScalar | src/profile.cpp:156-177 | every well-formed character is the encoding of one scalar value |
| Utf8.RawIsUtf8 | src/profile.cpp:241-263 | the check of raw bytes accepts exactly the well-formed characters of more than one byte |
| Utf8.LeadMasks | src/profile.cpp:241-256 | the masks of the check mean the byte ranges of the model |
| Utf8.EncoderShifts | src/profile.cpp:156-177 | the shifts and masks of the encoder mean quotients and remainders |
| JsonLexis.CharComplete | src/profile.cpp:195-269 | every character the grammar allows in a string is read, with its meaning |
| JsonLexis.CharSound | src/profile.cpp:195-269 | whatever is read as a character is one, escapes and surrogate pairs included |
| JsonLexis.CharsAreUtf8 | src/profile.cpp:195-269 | every string value is well-formed UTF-8 |
| JsonLexis.NumberSound | src/profile.cpp:271-300 | whatever is read as a number is one of section 6 of RFC 8259 that `strtod` takes |
| JsonLexis.NumberComplete | src/profile.cpp:271-300 | and every such number, followed by what may follow it, is read whole |
| JsonExact.ValueSound | src/profile.cpp:87-154 | an accepted value text is in the grammar and within the limits, and the result is its meaning |
| JsonExact.ValueComplete | src/profile.cpp:87-154 | every value text of the grammar within the limits is accepted |
| JsonTheorems.ParseIsExact | src/profile.cpp:51-304 | the parser accepts exactly the texts of the grammar within its limits and returns what they mean |
| JsonTheorems.AcceptedIsStorable | src/profile.cpp:51-304 | everything it returns has well-formed strings, grammatical numbers, ordered distinct keys and sizes and depth within the limits |
| JsonTheorems.CanonIs | src/profile.cpp:310-371 | the canonical text of a storable value is in the grammar and means that value |
| JsonTheorems.WiderReads | src/profile.cpp:295-303 | the range test of numbers only rejects: a reader with a wider one reads the same from every text that is accepted |
| JsonTheorems.RoundTrip | src/profile.cpp:51-371 | reading what was printed gives the value back |
| JsonTheorems.PrintInjective | src/profile.cpp:335-371 | different storable values have different canonical texts |
| JsonTheorems.PrintNoLonger | src/profile.cpp:310-371 | no text of a value is shorter than its canonical text |
| JsonTheorems.CanonicalisingIsIdempotent | src/profile.cpp:51-371 | the canonical text of every accepted text is accepted, not longer, has the same value and is its own canonical text |
| JsonTheorems.OrderBlind | src/profile.cpp:111-368 | objects with the same members in another order mean the same |
| JsonTheorems.EmplacedIsMap | src/profile.cpp:126-127 | the ordered members behave as the source's map: ordered, one value per key, the first kept |
| JsonParser.JsonParser.Parse | src/profile.cpp:60-68 | the position-driven parser computes the specified result and stops at the end of the text |
| JsonParser.JsonParser.SkipSpace | src/profile.cpp:77-85 | stops at the first byte that is no space |
| JsonParser.JsonParser.Consume | src/profile.cpp:103-109 | moves over a literal exactly when it stands there |
| JsonParser.JsonParser.ParseValue | src/profile.cpp:87-101 | reads one value as specified, never past the end |
| JsonParser.JsonParser.ParseObject | src/profile.cpp:111-135 | reads an object as specified |
| JsonParser.JsonParser.ParseArray | src/profile.cpp:137-154 | reads an array as specified |
| JsonParser.JsonParser.ParseHex4 | src/profile.cpp:179-193 | reads four hexadecimal digits as specified |
| JsonParser.JsonParser.ParseUnicode | src/profile.cpp:218-235 | reads a Unicode escape or surrogate pair as specified |
| JsonParser.JsonParser.CopyRaw | src/profile.cpp:239-263 | reads and copies one raw character as specified |
| JsonParser.JsonParser.ParseString | src/profile.cpp:195-269 | reads a string as specified |
| JsonParser.JsonParser.ParseNumber | src/profile.cpp:271-300 | reads a number as specified |
| JsonParser.HexShift | src/profile.cpp:179-193 | shifting by four and or-ing a digit is appending it in base sixteen |
| JsonParser.ParseText | src/profile.cpp:54-68 | construction with its size check followed by parsing gives the specified result |
| JsonParser.EscapeJson | src/profile.cpp:310-333 | the escape loop writes the specified text |
| JsonParser.CanonicalJson | src/profile.cpp:335-371 | the printing loops write the specified text |
| Schema.DecodeEncoded | src/profile.cpp:391-631 | reading back a record gives the record, for every schema, when its doubles survive being printed |
| Schema.DecodedRereads | src/profile.cpp:391-631 | whatever is read back from a record is that record in everything but its doubles, each of which is what its printed text reads as |
| Schema.DecodedFits | src/profile.cpp:576-631 | whatever is read has the shape of its schema and keeps the limits |
| Schema.EncodeStorable | src/profile.cpp:391-574 | whatever is written can be read by the parser |
| Schema.DecimalIs | src/profile.cpp:601-608 | a written size is read back as the same size |
| ProfileTables.DatabaseTable | src/profile.cpp:391-574 | the field tables have distinct keys in map order, unambiguous enumerator names, and nest far below the depth limit |
| Profile.LoadedIsIntact | src/profile.cpp:633-868 | every database that loads, whatever doubles it holds, passes the integrity validation; saving would compute the hashes it has |
| Profile.SavedReloads | src/profile.cpp:555-816 | what was saved loads again, with hashes filled in, exactly when it is at most 16 MiB, has supported versions, and every double in it survives being printed and read |
| Profile.ResavingIsIdentical | src/profile.cpp:555-797 | saving again is byte-identical |
| Profile.LoadedReloads | src/profile.cpp:789-816 | a loaded database survives another save and load unchanged, size permitting, exactly when every double in it survives being printed and read |
| Profile.FindExact | src/profile.cpp:730-749 | returns the first entry that matches, or that there is none |
| Profile.LookupsSurvive | src/profile.cpp:730-816 | saving and loading keeps every answer of find_exact |
| Admission.ConstructedRuntimes | src/runtime.cpp:319-393 | a Runtime exists exactly for agreeing options within the governor's budget, with the ceiling asked for or the whole budget |
| Admission.WorkloadItems | src/operation.cpp:297-311 | the saturated product of the extents before the first zero, zero if one is met before saturation |
| Admission.UsefulIsEnough | src/operation.cpp:313-344 | between one and the ceiling, the fewest workers that keep every share small enough, or all of them, without overflow |
| Admission.PlanFitsCeiling | src/operation.cpp:68-567 | a plan never asks for more than the ceiling; a deterministic operation has one, the forced scheduler on the whole ceiling or the stored plan, which runs on exactly its approved budget if it is parallel and on one worker if not |
| Admission.RequestAlwaysAdmissible | src/operation.cpp:346-567 | the request of a prepared operation is complete as built, carries the policy and deadline asked for, and is never found invalid or impossible |
| Admission.NestedBound | src/operation.cpp:384-399 | along any chain of nested operations each runs within the grant of the lease, whose permits the governor still counts, but within its own parent's concurrency exactly when it asks for no more than the parent did or the parent had the whole grant |
| Admission.ChildMayExceedParent | src/operation.cpp:384-399 | an input where a nested operation runs on more workers than its parent |
| Admission.Operation.AdmitNested | src/operation.cpp:384-399 | a nested operation stays within the grant of the lease it runs under, which held permits cover; a deterministic one throws exactly when that is too small and otherwise gets its plan's workers |
| Admission.Operation.AdmitRoot | src/operation.cpp:400-458 | a root operation throws only for a missing timeout, is never refused as invalid or impossible, and when admitted holds its lease and plans for exactly its grant, which for a deterministic one is its plan's number |
| Admission.Operation.AdmitAfterWait | src/operation.cpp:419-458 | the same when the answer comes after a wait |
| Admission.Operation.Settle | src/operation.cpp:443-458 | a flexible plan shrinks to the grant, a deterministic one is untouched |
| Kernels.FlipSign | vision/src/threshold_kernel_avx2.cpp:33-46 | flipping the top bits turns the signed lane comparison into the unsigned one |
| Kernels.BlockIsPixels | vision/src/threshold_kernel_avx2.cpp:33-46 | every lane of a block is the scalar result, for every byte, in both modes |
| Kernels.Scalar | vision/src/threshold_kernel_dispatch.cpp:27-84 | the scalar loop writes each destination byte from its original source byte, in place or apart, and nothing else |
| Kernels.Sse2 | vision/src/threshold_kernel_sse2.cpp:23-53 | so does the SSE2 kernel, for every length |
| Kernels.Avx2 | vision/src/threshold_kernel_avx2.cpp:23-56 | so does the AVX2 kernel, for every length |
| Kernels.Threshold | vision/src/threshold_kernel_dispatch.cpp:127-146 | so the choice of kernel never shows |
| Threshold.ValidateIsUsable | vision/src/threshold.cpp:156-215 | a non-empty request passes exactly when, in exact arithmetic, it is usable: shapes agree, extents fit the address space, images coincide or are disjoint |
| Threshold.IndicesFit | vision/src/threshold.cpp:493-571 | after validation no row offset, pixel address, pixel count or chunk count overflows |
| Threshold.GuardIsExact | vision/src/threshold_kernel_avx2.cpp:39-39 | the guard of a vector loop decides as exact arithmetic does at every block exactly when the count is at most 2^64 - 1 less one block |
| Threshold.KernelGuards | vision/src/threshold.cpp:172-215 | a validated request meets that condition unless it works in place on an image within 32 bytes of address zero |
| Threshold.GuardsCanWrap | vision/src/threshold.cpp:172-215 | an input that passes validation and for which the guards of both vector loops wrap |
| Threshold.ChunksPartition | vision/src/threshold.cpp:493-501 | every unit lies in exactly one chunk, also when chunks outnumber units |
| Threshold.ThresholdRows | include/smart/vision/detail/threshold_kernel.hpp:65-101 | a range of rows is written, padding and everything else untouched |
| Threshold.ExecuteChunk | vision/src/threshold.cpp:515-571 | a chunk writes exactly its units |
| Threshold.ExecuteSequential | vision/src/threshold.cpp:585-635 | the sequential route leaves exactly the specified memory |
| Threshold.ExecuteChunks | vision/src/threshold.cpp:515-682 | so do the chunks, once each in any order |
| Threshold.Execute | vision/src/threshold.cpp:172-682 | a whole request: refused or empty leaves memory alone, otherwise exactly the specified memory for every route, worker count and chunk order |
| Interleaving.OnePiece | vision/src/threshold.cpp:493-571 | no pixel belongs to two pieces of kernels, of the same chunk or of different ones |
| Interleaving.PixelHasPiece | vision/src/threshold.cpp:493-571 | every pixel belongs to a piece of the kernel of its chunk |
| Interleaving.AnyInterleaving | vision/src/threshold.cpp:515-682 | however the loads and stores of the kernels of all chunks interleave, every byte stored so far is the one the simple form wants of the original image, and every other byte is untouched |
| Interleaving.AllStored | vision/src/threshold.cpp:515-682 | so when all pieces are stored, memory is what the sequential route leaves |

## Left out

- `execute_visible_work`: submit and wait are modelled, this loop adds only their composition.
- `recommended_helper_count` and the helper limits: the number of helpers of a region is arbitrary in the model.
- PoolTheorems.HelpingNeverDeadlocks: says that some thread can step, not that the scheduler lets it; callbacks that never return keep their step forever. Two jobs that both call `wait` do block each other, so nothing is claimed for states in which a thread sleeps in `wait`.
- PoolTheorems.ExactlyOnce: two helping calls that consume the same work at the same time; each region of the model has its work to itself while it lasts.
- Two pools on one thread: the model has one pool, as the depth counter of the source supports.
- Thread creation, the captured exception objects, timing statistics and telemetry of the pool.
- Chunks.SchedulerVisibleWork.TryAcquire: the compare-and-exchange loop is one step without interference; in the interleaved model the cancellation test and the taking of a chunk are two atomic steps. Progress counting and `mark_complete` only feed statistics.
- Memory orderings and allocation failure; a publication that throws is modelled, for whatever reason it happens.
- Clocks: ages and deadlines are free choices, durations are not recorded.
- Condition variables of the governor: that a cancellation, deadline or withdrawal wakes another waiter is not claimed, since the source does not guarantee it.
- Lease identities, names and fingerprints; shared request records are known by sequence number, not by pointer.
- Which error message the parser reports and at which byte; a failure is only a failure.
- SHA-256, `strtod` and the printing of doubles are parameters.
- Profile.SavedReloads: for databases whose enumerators are valid, whose doubles are finite and whose contracts are complete; `finite_number` throwing on other doubles, and the derived values of an entry without a resource contract, are not modelled.
- File access, the atomic rename, command-line tools.
- Admission.PlanFitsCeiling: profile mismatches that have nothing to do with worker counts are one unconstrained flag.
- Admission.Operation.AdmitRoot: the reports and fingerprints it fills in, and the counter of waits.
- Kernels.Avx2: its loop guard, as that of `Kernels.Sse2`, is an exact sum; for a count within one block of 2^64 the 64-bit guard of the source wraps, which `Threshold.GuardIsExact` and `Threshold.KernelGuards` delimit.
- The adaptive route selector, the hot-route cache, experience learning, OpenCV and oneTBB routes, CPU detection.
