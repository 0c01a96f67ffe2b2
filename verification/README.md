# RivetQ, verified

A Dafny model of the parts of RivetQ that carry its promises: the queue manager with its lease protocol, the indexed
heap behind each ready queue, the write-ahead log, the consistent-hash ring, the token bucket and the key range of a
prefix scan. `dafny verify dfyconfig.toml` checks everything.

How it is built:

- What the source does by changing things is a class or a method with loops (`Marshalling`, `WriteAhead`,
  `PriorityQueues`, `Queues`, `Managers`, `Sharding`, `Buckets.TokenBucket`, `PrefixScan.PrefixUpperBound`), proved
  against functions on values.
- What is promised is proved about those functions: `Codec`, `Layout`, `Framing`, `Logs`, `Damage`, `Compaction` and
  `Interruption` for the log, `HeapOrder` and `Serving` for the order of jobs, `States`, `Steps` and `Sweeping` for one
  step of the manager, `Naming`, `Rings` and `Preferences` for the ring.
- `Histories` defines runs of the manager: any sequence of public operations, compactions and crashes. Each operation
  is one atomic step, except Enqueue, whose key lookup, log write, key store and push are four, so that others, or a
  crash, may come in between. A history beside the state remembers what was logged, acknowledged, leased and used up.
  `Invariants`, `Recovery` and `Runs` show what every step keeps, `Theorems`, `Timing`, `Keys` and `Audit` draw the
  conclusions, and `Scenario` and `Duplicates` build runs.
- The functions that specify a method are tied to the fields they speak of by predicates that do not use them
  (`Serving.HandsOut`, `Sweeping.LeasesKept`, `Sweeping.GivenBack`, `Managers.AsAsked`, `Steps.Replays`,
  `Logs.GrownBy`, `Rings.Joined`, `Naming.IsName`).

Times are integers (nanoseconds since the epoch; Go's zero time is the start of the year 1), and byte strings are
sequences. The clock, the ids drawn, the backoff delays, the checksum, the ring's hash, the answer of the rate limiter
and the success of store calls are parameters; lease ids and job ids are fresh when drawn. Runs take enqueued jobs
whose fields fit the log's encoding; what happens to others is `Codec.RoundTripExactlyWhenFits`.

Where the code differs from what is said about it, the model follows the code:

- ARCHITECTURE.md:227-239 lets replay remove acknowledged jobs and restore tries and dead letters. Leases are never
  logged, so replay finds nothing inflight, and those records change nothing. What holds is that no live job is lost
  (`Theorems.NoLiveJobLost`); acknowledged jobs come back (`Theorems.EverythingComesBack`,
  `Scenario.AckedJobComesBack`), because nothing in the server calls Compact, although QUICKSTART.md:373 says that it
  happens by itself.
- `ShouldRetry` compares after counting up, so MaxRetries = 2 allows two leases (`Theorems.RetryBudget`);
  internal/queue/queue_test.go:163-187 expects three.
- A delayed job of high priority at the root of the heap holds back ready jobs of lower priority
  (`Serving.EmptyLeaseExactlyWhen`, `Serving.NothingPassedOver`).
- A torn frame at the end of the log is not skipped but makes the next start fail (`Theorems.CrashInsideWrite`), while
  records written behind a corrupted frame are lost without notice (`Damage.WriteIsSeenExactlyWhen`).
- After a compaction and a reopen, the compacted segment sorts behind the old active one. This is harmless as long as
  job ids are unique (`Compaction.CompactThenReopen`).
- Idempotency keys are said to prevent duplicates (CHANGELOG.md:43). The lookup and the store of a key are not one step,
  so two jobs can be enqueued under one key; `Keys.TwoJobsOneKey` says exactly when, `Keys.OneJobPerKey` when not, and
  `Duplicates` has a run of each kind.
- A nack whose log write fails leaves its job inflight without a deadline, where no sweep finds it
  (`Sweeping.HalfNackedIsStuck`).
- Two virtual nodes on one point break RemoveNode (`Rings.LeavingUndoesJoiningExactlyWhen`): points stay behind that
  answer with no name (`Preferences.NobodyAnswers`). They can also leave fewer owners of points than nodes
  (`Preferences.TwoNodesOnePoint`), and then GetNodes does not end (`Preferences.WalkEndsExactlyWhen`).
- A prefix that ends in 0xFF scans a few foreign keys (`PrefixScan.ScanVisitsExactly`).

## Model

| member | source | states |
|---|---|---|
| Theorems.NoLiveJobLost | internal/queue/queue.go:77-140 | For every run, wherever between two writes the process dies (also between the lookup, log, key and push steps of an Enqueue, or between two requeue records of a sweep), the log can be replayed, and every job that was ready, inflight, dead-lettered or on its way in is ready again as it was enqueued; nothing is inflight or dead-lettered |
| Theorems.LiveJobComesBack | internal/queue/queue.go:213-239 | The same read off the job itself: whatever place it was in, it comes back in its queue with its id, payload, headers, priority and retry limit, with tries at zero |
| Theorems.RecoveredExactly | internal/queue/queue.go:80-96 | If and only if: a restart has a job ready exactly when its enqueue record is still in the log, acknowledged or not |
| Theorems.EverythingComesBack | internal/queue/queue.go:98-126 | Without compaction, which the server never calls, every job ever enqueued is ready after a restart, also the acknowledged ones, since no lease is logged and an ack record changes nothing during replay |
| Theorems.RunForgetsNothing | internal/wal/wal.go:131-147 | In every run without compaction the log keeps the enqueue record of every job ever logged |
| Theorems.RecordStays | internal/wal/wal.go:131-147 | No step of the manager but a compaction takes a record out of the log |
| Theorems.CrashInsideWrite | internal/wal/segment.go:197-219 | After any run, a process that dies inside a log write can be started again if and only if none or all of the frame reached the file |
| Theorems.CrashInsideCompact | internal/wal/wal.go:204-259 | If and only if: after any run, a crash inside a compaction, at any byte of its copy and between any two removals, leaves a directory that can be replayed exactly when the copy ends between two frames; then every live job is ready again, if the active ids cover the live jobs |
| Theorems.EachJobInOnePlace | internal/queue/queue.go:265-282 | In every state of every run, a job that entered a queue and was not acknowledged is in exactly one of ready, inflight and dead letters of its own queue, with the status, lease fields and tries of that place; no other queue has it |
| Theorems.Conservation | internal/queue/queue.go:505-515 | In every state, per queue: jobs that entered since the start equal ready plus inflight plus dead-lettered plus acknowledged |
| Theorems.GuardDropsNothing | internal/queue/heap.go:75-77 | No push of a new, nacked or expired job in any run meets a job of that id that is ready already, so the duplicate guard drops nothing |
| Theorems.RetryBudget | internal/queue/job.go:64-66 | In every state a job has been leased as often as its tries say, plus once while inflight, never more than max(1, MaxRetries) times; it is dead-lettered exactly when the budget is used up |
| Theorems.HandedOutIsCounted | internal/queue/queue.go:265-282 | The jobs handed out by all leases since the last start add up to the leases counted per job |
| Theorems.TotalLeases | internal/queue/queue.go:265-282 | All leases since the last start stay within the sum of the budgets of the jobs |
| Theorems.LeaseIsExclusive | internal/queue/queue.go:272-278 | At any time at most one lease id is valid for a job and a lease id is valid for at most one job, across all queues |
| Theorems.NoLeaseHonouredTwice | internal/queue/queue.go:311-313 | Once a lease was acked, nacked, taken back by a sweep or lost with the process, no later Ack or Nack with it succeeds, also after the job was leased again or the process restarted |
| Theorems.SpentForGood | internal/queue/queue.go:474-480 | Leases that are used up stay used up for the rest of the run |
| Keys.LookupMissesExactlyWhen | internal/queue/queue.go:174-183 | If and only if: in every run, the lookup of an Enqueue finds nothing exactly when no Enqueue, of this process or an earlier one, has stored the key before |
| Keys.LookupFinds | internal/queue/queue.go:174-183 | What a lookup returns is the id of the job that stored the key last, and that job was logged with it |
| Keys.TwoJobsOneKey | internal/queue/queue.go:172-243 | If and only if: two logged jobs carry the same key exactly when the later lookup came before any store of it, with the earlier call still under way or never storing its key |
| Keys.OneJobPerKey | internal/queue/queue.go:172-243 | If no calls with a key overlap, none is cut off by a crash and each stores its key before the push, one job carries it |
| Keys.RunKeepsKeyInv | internal/queue/queue.go:229-234 | In every state a stored key names a job that was logged with that key |
| Duplicates.DuplicateByOverlap | internal/queue/queue.go:172-243 | A run in which two overlapping calls enqueue two jobs under one key |
| Duplicates.DuplicateByFailedStore | internal/queue/queue.go:229-234 | A run in which the store of the key fails and the next call enqueues a second job |
| Duplicates.DuplicateByCrash | internal/queue/queue.go:225-231 | A run in which a crash between log and store leaves the job but not the key, and the next call enqueues a second one |
| Scenario.AckedJobComesBack | internal/queue/queue.go:98-104 | For every job that can be logged there is a run in which it is enqueued, leased and acknowledged, and a restart then has it ready again |
| Audit.LogTellsEachStep | internal/queue/queue.go:213-227 | For every step of every run, what replay delivers grows by exactly one record that tells an enqueue (type 1), an ack (2) or a nack (3) with its queue, id, lease, tries, reason, and ETA to the millisecond, and a retried nack also with its priority and limit, all other fields zero; a lookup, a key, a push and a lease add nothing |
| Audit.SweepIsTold | internal/queue/queue.go:482-492 | A sweep adds exactly one requeue record (type 4) for each job that it makes ready again, each job once, with its queue, counted try, priority, limit and ETA, and none for the dead-lettered |
| Timing.LeaseLastsExactly | internal/queue/queue.go:461-466 | If and only if, for every run: a lease taken at t for v milliseconds (where they fit 64-bit nanoseconds) is held exactly as long as no Ack or Nack with it succeeds, no sweep of its queue comes after t + v, and the process does not die |
| Timing.EveryLease | internal/queue/queue.go:246-285 | Every lease of every run: at most max(1, maxJobs) jobs, each ready and with its ETA reached or none before, each now inflight under an id of its own until now + visibility; nothing else has moved; if fewer came back and jobs are left, one that no other left precedes has its ETA still ahead |
| Timing.EveryNack | internal/queue/queue.go:365-428 | Every nack of every run: the job is ready or dead-lettered afterwards, with one more try and no lease, and if it is ready its ETA is now + delay |
| Timing.EverySweep | internal/queue/queue.go:461-497 | Every sweep of every run: inflight keeps, unchanged, exactly the leases without a deadline or with one not past; every other job is ready, with ETA now + the delay drawn for it, or dead-lettered; what was ready stays as it was |
| Timing.WaitsForItsTime | internal/queue/heap.go:135-146 | For every run: a job that is ready, or logged and not pushed yet, is not handed out by a lease before its ETA, whatever else happens in between, unless the process dies |
| Timing.EnqueuedWaits | internal/queue/queue.go:193-197 | From the log write of its Enqueue on, no lease hands out a delayed job before its ETA |
| Timing.NackedWaits | internal/queue/queue.go:369-398 | No lease hands out a nacked job again before now + delay of the nack |
| Timing.SweptWaits | internal/queue/queue.go:471-495 | No lease hands out a job that a sweep took back before now + delay of the sweep |
| Runs.RunKeepsInv | internal/queue/queue.go:172-502 | The whole invariant (place, status, leases, counts, log contents of every job) holds in every state of every run |
| Runs.NextKeepsInv | internal/queue/queue.go:172-502 | Each kind of step keeps it |
| Runs.LookUpKeepsInv | internal/queue/queue.go:174-183 | Looking up a key keeps it |
| Runs.LogKeepsInv | internal/queue/queue.go:213-227 | Writing the enqueue record keeps it: the job is in the log before it is in the queue |
| Runs.PushKeepsInv | internal/queue/queue.go:237-239 | Pushing a logged job keeps it |
| Runs.LeaseKeepsInv | internal/queue/queue.go:246-285 | Leasing with fresh lease ids keeps it |
| Runs.AckKeepsInv | internal/queue/queue.go:288-334 | A successful Ack keeps it |
| Runs.NackKeepsInv | internal/queue/queue.go:337-428 | A successful Nack keeps it |
| Runs.SweepKeepsInv | internal/queue/queue.go:448-502 | A sweep keeps it |
| Runs.CompactKeepsInv | internal/wal/wal.go:187-263 | A compaction whose active ids cover the live jobs succeeds and keeps it |
| Runs.CrashKeepsInv | internal/queue/queue.go:56-140 | A crash and restart establish it anew |
| Runs.RecoveredIsOrigin | internal/queue/queue.go:80-96 | What a restart has ready is rebuilt from the one enqueue record of that job |
| Runs.HeldIsRecovered | internal/queue/queue.go:80-96 | What the log holds a restart has ready |
| Invariants.TriesDoNotWrap | internal/queue/queue.go:365-371 | The 32-bit counter of tries never wraps, and the retry test sends a job to the dead letters exactly when its budget is used up |
| Invariants.LeaseKeeps | internal/queue/queue.go:262-282 | One queue: leased jobs move from ready to inflight, each under a lease id of its own |
| Invariants.NackKeeps | internal/queue/queue.go:365-428 | One queue: a nacked job moves to ready or dead letters with one more try, and its lease is used up |
| Invariants.SweepKeeps | internal/queue/queue.go:465-497 | One queue: a sweep moves all expired jobs at once and uses up their leases |
| Recovery.ReplayRebuilds | internal/queue/queue.go:77-140 | Replaying any sequence of records into no queues gives exactly the jobs they enqueue, each as its first enqueue record has it, all of them ready; the other kinds of record change nothing |
| Recovery.ReopenHolds | internal/wal/wal.go:68-114 | Reopening may reorder the segments but keeps the set of records |
| Recovery.CompactHolds | internal/wal/wal.go:187-263 | A compaction of a readable log adds no record and drops no enqueue record of an active job |
| Managers.Manager.Enqueue | internal/queue/queue.go:172-243 | Looks up the key, asks the limiter, creates the queue, logs the job, stores the key, pushes the job, in this order; a refusal leaves the state alone, a failed log write leaves the queue that was created. In the arguments alone: the job is ready with that payload, headers, priority and limit, no tries, no lease, the enqueue time, and an ETA of now, or of now + delayMs if that is positive and fits; the record written (type 1) tells the same |
| Managers.Manager.StoreKey | internal/queue/queue.go:229-234 | Stores the key and touches nothing else |
| Managers.Manager.GetOrCreateQueue | internal/queue/queue.go:143-162 | Adds an empty queue if there is none of that name; all others are as they were |
| Managers.Manager.Lease | internal/queue/queue.go:246-285 | Unknown queue: error and no change. Otherwise the jobs handed out are the longest admissible prefix of a serving order, and in fields: at most max(1, maxJobs), each ready with its ETA reached, each moved to inflight under the id drawn until now + visibilityMs where that fits; nothing else moves; short of the limit with jobs left, a first one is not due |
| Managers.Manager.FindInflight | internal/queue/queue.go:293-305 | Finds a queue that has the job inflight if there is one |
| Managers.Manager.Ack | internal/queue/queue.go:288-334 | Not found, wrong lease and a failed log write leave the state alone and say why; otherwise the job leaves inflight and the ack is logged |
| Managers.Manager.Nack | internal/queue/queue.go:337-428 | Not found and wrong lease leave the state alone and say why; otherwise one more try is counted, the job goes to ready with ETA now + delay and no lease, or to the dead letters when tries reach the limit, and the matching record is logged; if the log write fails the job is left inflight, changed and without its lease |
| Managers.Manager.SweepQueue | internal/queue/queue.go:459-500 | One queue of the sweep: inflight keeps exactly the leases without a deadline or with one not past, unchanged; the others are sorted into ready and dead letters, requeue records are logged for the former and none for the latter |
| Managers.Manager.CheckLeaseTimeouts | internal/queue/queue.go:448-502 | The sweep of all queues, in whatever order they are visited, sweeps each queue once; the resulting queues do not depend on that order, and each keeps exactly the leases whose deadline is not past |
| Managers.Manager.SweepAll | internal/queue/queue.go:458-501 | Sweeps the queues listed one by one |
| Managers.Manager.Apply | internal/queue/queue.go:80-139 | What one record does to the queues during replay, by its type from 1 to 5 and in fields; any other type, and any but an enqueue for an unknown queue, does nothing |
| Steps.AppliedReplays | internal/queue/queue.go:80-139 | The same of the function that specifies it |
| Managers.Manager.ReplayWal | internal/queue/queue.go:77-140 | Applies the records in log order and reports whether the log was readable to its end |
| Managers.Manager.Stats | internal/queue/queue.go:505-515 | The sizes of the three parts of a queue, or an error for an unknown queue |
| Managers.Boot | internal/queue/queue.go:45-67 | A new process over the files left behind: it starts if and only if the log can be replayed, and then is in the state the restart step describes |
| Queues.Queue.LeaseJobs | internal/queue/queue.go:262-285 | The loop of Lease over the heap takes the longest prefix, up to the limit, of a serving order whose members are all ready; in fields: due jobs only, no more than the limit, and short of it only if nothing is left or a first job left is not due |
| Queues.Queue.LeaseOne | internal/queue/queue.go:265-279 | One turn: pops a job that no other precedes, ready and with its ETA reached or zero, and puts it inflight with lease id, deadline and status; or stops at one that is not ready or has its ETA ahead |
| Queues.Queue.Sweep | internal/queue/queue.go:461-498 | The loops over the inflight map give, in whatever order it is visited, the one outcome of the sweep; inflight keeps exactly the leases whose deadline is zero or not past, and there are requeue records of exactly the retried jobs |
| Queues.Queue.Return | internal/queue/queue.go:374-425 | A tried job leaves inflight for ready or dead letters |
| Queues.CollectExpired | internal/queue/queue.go:461-466 | The jobs whose deadline is set and past, each once |
| Serving.NothingPassedOver | internal/queue/heap.go:135-146 | A job left behind by a lease is behind every job taken; if the lease stopped short, it waits behind a job whose status is not ready or whose ETA is ahead |
| Serving.PickedAreHandedOut | internal/queue/queue.go:262-285 | Taking leases on a longest ready prefix is a hand-out in fields: due jobs only, within the limit, each inflight with id, deadline and status set and all else as it was, nothing else moved, held back only by a first job that is not due |
| Serving.EmptyLeaseExactlyWhen | internal/queue/heap.go:135-146 | If and only if: a lease may come back empty exactly when nothing is held or a job that no other precedes is not ready or has its ETA ahead, whatever is due behind it |
| Serving.DelayedJobHoldsBack | internal/queue/heap.go:140-143 | Two jobs, the lower one ready and the higher one delayed: every lease comes back empty |
| Serving.ServedFirst | internal/queue/heap.go:20-33 | A job taken has a higher priority, or an earlier ETA, or was not enqueued later than one left behind |
| Serving.EmptyLease | internal/queue/heap.go:140-143 | A lease that comes back empty: no job of the highest priority present is ready, though lower ones may be |
| Serving.Stopped | internal/queue/queue.go:262-282 | Popping first jobs one by one until the limit, the end or an unready root yields a longest ready prefix of a serving order of all that was there |
| Serving.OrderFrom | internal/queue/heap.go:20-33 | Any job that no other precedes can head a sorted order of the ready jobs |
| Jobs.NotAfterTransitive | internal/queue/heap.go:20-33 | The serving order (priority descending, ETA, enqueue time) is a total preorder |
| Sweeping.SweepIsExact | internal/queue/queue.go:471-497 | In fields: after a sweep a lease whose deadline is zero or not past is as it was; any other job has left inflight and is ready or dead-lettered by its incremented tries, with ETA now + delay and no lease |
| Sweeping.SweptKeepsLeases | internal/queue/queue.go:461-466 | Inflight keeps exactly the leases whose deadline is zero or not past |
| Sweeping.GiveBackGivesBack | internal/queue/queue.go:365-425 | In fields: a nacked job leaves inflight for ready, due at the new ETA with one more try and no lease, or for the dead letters, by its tries; nothing else moves |
| Sweeping.SweepLeavesNoneExpired | internal/queue/queue.go:461-466 | After a sweep inflight holds exactly the leases without a deadline or with one not past, and nothing else moved |
| Sweeping.HalfNackedIsStuck | internal/queue/queue.go:365-392 | A job left inflight by a nack whose log write failed is taken back by no sweep at any time |
| Sweeping.SweptOneMore | internal/queue/queue.go:471-497 | Giving back one more expired job commutes with having given back any others: the outcome depends only on the set visited |
| Steps.TraceSweeps | internal/queue/queue.go:458-501 | Any sequence of single-queue sweeps that names each queue once, in any order, ends with every queue swept |
| PriorityQueues.PriorityQueue.Push | internal/queue/heap.go:74-82 | The job is added unless its id is held; heap order, positions and id map stay exact |
| PriorityQueues.PriorityQueue.Pop | internal/queue/heap.go:85-93 | Takes out one job that no other precedes; nothing else is lost |
| PriorityQueues.PriorityQueue.Remove | internal/queue/heap.go:104-113 | Takes out the job of that id and no other, or nothing |
| PriorityQueues.PriorityQueue.PopReady | internal/queue/heap.go:135-146 | Pops the first job if its status is ready and its ETA zero or reached; otherwise changes nothing, and the first job is the one that is not |
| PriorityQueues.PriorityQueue.Len | internal/queue/heap.go:116-118 | The number of jobs held |
| PriorityQueues.PriorityQueue.Swap | internal/queue/heap.go:35-39 | Exchanges two items and keeps every index equal to its position |
| PriorityQueues.PriorityQueue.Up | internal/queue/heap.go:41-45 | Sift-up repairs a heap that is broken at one place towards its root, keeping items and positions |
| PriorityQueues.PriorityQueue.Down | internal/queue/heap.go:47-55 | Sift-down repairs a heap that is loose at one place, or reports that nothing moved |
| PriorityQueues.PriorityQueue.HeapPush | internal/queue/heap.go:41-45 | Append and sift up: same items and one more, in heap order |
| PriorityQueues.PriorityQueue.HeapPop | internal/queue/heap.go:47-55 | Takes out the root, in heap order |
| PriorityQueues.PriorityQueue.HeapRemove | internal/queue/heap.go:104-113 | Takes out the item at any position, in heap order |
| HeapOrder.RootIsFirst | internal/queue/heap.go:20-33 | In heap order no job precedes the root |
| Codec.RoundTripExactlyWhenFits | internal/wal/record.go:43-262 | If and only if: reading an encoding, in any header order, gives back the record with its ETA floored to the millisecond exactly when every field fits its length prefix and the ETA its 64 bits |
| Codec.ParseOfEncode | internal/wal/record.go:125-262 | With a reason of any length, all other fields survive and the reason is cut modulo 65536 |
| Codec.PrefixFree | internal/wal/record.go:125-262 | No strict prefix of an encoding is readable; bytes behind it are not looked at |
| Codec.ParseReadsOnlyItsRecord | internal/wal/record.go:125-262 | On any bytes: the record found at the front is found in exactly the prefixes that hold the bytes it was read from |
| Codec.ReadRecordsFit | internal/wal/record.go:125-262 | Whatever bytes it came from, a record that was read fits the format and survives a further trip unchanged |
| Codec.EncodedSize | internal/wal/record.go:44-52 | The precomputed size is the number of bytes written, in any header order |
| Layout.LaidOut | internal/wal/record.go:43-122 | The encoding of any record byte by byte: order and width of the fields and of their length prefixes, little-endian integers, the ETA as the 64-bit two's complement of its millisecond |
| Layout.HeadersLaidOut | internal/wal/record.go:94-107 | Each header is a name and a value, each behind a two-byte length |
| Layout.FrameLaidOut | internal/wal/segment.go:84-131 | A frame is a four-byte length, a four-byte checksum and the data |
| Layout.UnreadableFrameBreaks | internal/wal/segment.go:197-234 | A frame with the right checksum whose data is no record is an error that stops replay, not one that is skipped |
| Marshalling.Marshal | internal/wal/record.go:43-122 | Fills the buffer exactly with an encoding of the record in some header order |
| Marshalling.Unmarshal | internal/wal/record.go:125-262 | Total: refuses a byte string or reads it within its bounds, as the reference parser does |
| Marshalling.PutHeaders | internal/wal/record.go:94-107 | Writes each header once, in the order visited |
| Marshalling.GetHeaders | internal/wal/record.go:202-235 | Reads the stated number of headers or refuses |
| Framing.ScanFrames | internal/wal/segment.go:84-131 | Reading back any frames written one after another delivers their records in order, whatever follows |
| Framing.ScanAppend | internal/wal/segment.go:197-234 | Appending to any segment is seen exactly when the reader gets to the end of what was there; behind a corrupted frame it is not |
| Framing.CutSegment | internal/wal/segment.go:197-234 | A segment cut at any byte delivers exactly the whole frames, and ends cleanly only at a frame boundary |
| Framing.CorruptedSegment | internal/wal/wal.go:165-168 | A frame that fails its checksum ends its segment after the frames before it |
| Logs.LogOrder | internal/wal/wal.go:68-147 | For every sequence of writes and reopens, over any number of rotations: replay delivers exactly the written records in write order, segment ids ascend, and the total size is 8 plus the encoded length summed over all records |
| Logs.WriteExtendsReplay | internal/wal/wal.go:131-147 | One write adds its record at the end of what replay delivers, with or without a rotation |
| Logs.RotationIsInvisible | internal/wal/wal.go:117-128 | Opening a new segment changes nothing that replay delivers |
| Logs.ReopenReplays | internal/wal/wal.go:68-114 | Closing and reopening delivers the same records |
| Damage.TornWrite | internal/wal/segment.go:84-131 | A write of which any number of bytes reached the file: what replay then delivers, and that it succeeds exactly when none or all of them did |
| Damage.WriteIsSeenExactlyWhen | internal/wal/wal.go:165-168 | If and only if: a write to any replayable log is seen by replay exactly when the active segment was full or can be read to its end |
| Damage.DamageIsContained | internal/wal/wal.go:160-181 | A bad frame in any segment costs only the rest of that segment; replay goes on with the others |
| Damage.RestartAfterTornWrite | internal/wal/wal.go:169-172 | If and only if, for any replayable log: a torn write lets the next start succeed exactly when none or all of it reached the file, or it went where nothing is read |
| Damage.ReopenOk | internal/wal/wal.go:95-98 | Whether a log can be replayed does not depend on the order of its segments |
| Compaction.CompactPreservesMeaning | internal/wal/wal.go:187-263 | For every active id a compacted log means what it meant, even with corrupted segments, exactly when what an earlier failed compaction left in the file says nothing of it or the same; of other ids only the leftovers and the active segment remain |
| Compaction.CompactThenReopen | internal/wal/wal.go:95-111 | If and only if: after a reopen, which sorts the compacted segment behind the old active one, an active id means what it meant exactly when old and active segments do not hold different enqueue records for it |
| Compaction.InKept | internal/wal/wal.go:225-231 | Of the records read from the old segments exactly those of type 1 whose job is active are kept |
| Compaction.DirectReplay | internal/wal/wal.go:187-263 | What replay delivers after a compaction: leftovers of a failed one, the enqueue records of active jobs from the old segments, then the active segment as before; behind corrupted leftovers nothing is kept |
| Compaction.FailedCompactionStaysClean | internal/wal/wal.go:220-223 | A compaction that fails touches no segment, and leaves a file that can be read to its end |
| Interruption.MidwayOkExactlyWhen | internal/wal/wal.go:204-259 | If and only if, for any readable log: the directory left by a crash inside a compaction can be replayed exactly when the copy ends between two frames |
| Interruption.CrashInsideCompactHolds | internal/wal/wal.go:204-259 | Where it can be replayed, that directory holds no new record and every enqueue record of an active job |
| WriteAhead.Wal.Write | internal/wal/wal.go:131-147 | In fields: the frame of the record is appended to the last segment, or, exactly if that has reached the segment size, to a new one under the next id; nothing else changes |
| WriteAhead.Wal.Replay | internal/wal/wal.go:150-184 | The nested loops deliver what the log value says, past corrupted segments and up to another fault |
| WriteAhead.Wal.Compact | internal/wal/wal.go:187-263 | Copies the wanted records to a new segment, removes the old ones and puts it first; on a fault in an old segment nothing is replaced |
| WriteAhead.Wal.CreateSegment | internal/wal/wal.go:117-128 | A new segment under the next id becomes the active one |
| WriteAhead.Wal.TotalSize | internal/wal/wal.go:287-296 | The sum of the sizes of the open segments |
| WriteAhead.Wal.constructor | internal/wal/wal.go:35-65 | Opens what is in the directory in the order of the ids, or a first segment; the segment size is the one configured, or 64 MiB for zero |
| WriteAhead.LoadSegments | internal/wal/wal.go:68-114 | Opens every segment found, ids ascending |
| WriteAhead.ReplayFiles | internal/wal/wal.go:155-181 | The loop over the segments |
| WriteAhead.CopyKept | internal/wal/wal.go:204-234 | Replays all but the active segment and writes the enqueue records of active jobs |
| WriteAhead.Segment.Write | internal/wal/segment.go:84-131 | Appends length, checksum and data, and counts the size up by as much |
| WriteAhead.SegmentReader.Read | internal/wal/segment.go:197-234 | One frame: end, corrupted, broken or a record, and where reading goes on |
| WriteAhead.ReadSegment | internal/wal/wal.go:160-181 | Reads a segment to its end or first fault |
| Preferences.LeaveDropsOneNode | internal/cluster/sharding.go:56-77 | On a ring without collisions, removing a node takes it out of every key's full preference list and changes nothing else in it |
| Preferences.JoinInsertsOneNode | internal/cluster/sharding.go:32-53 | Adding a node is the inverse: taking it out of the new list gives the old one, and removing it gives the old ring |
| Preferences.LeaveMovesOnlyItsKeys | internal/cluster/sharding.go:105-141 | After a leave, the remaining replicas of a key stay in order with at most one node called up behind them; keys the node did not hold are untouched |
| Preferences.OwnersMove | internal/cluster/sharding.go:32-102 | A leave moves only the keys of the departed node, a join moves keys only to the new one |
| Preferences.PreferenceIsAllNodes | internal/cluster/sharding.go:105-141 | Without collisions the preference list of a key is all nodes, each once |
| Preferences.FirstPreference | internal/cluster/sharding.go:80-102 | The owner of the least point at or after the hash, or else of the least point, is the head of the preference list |
| Preferences.WalkEndsExactlyWhen | internal/cluster/sharding.go:130-138 | If and only if, for every ring and key: the walk meets n names after some number of steps exactly when at least n names own a point |
| Preferences.WalkFindsNoMore | internal/cluster/sharding.go:130-138 | However long the ring is walked it meets no more names than own a point |
| Preferences.WalkEndsWithoutCollisions | internal/cluster/sharding.go:113-138 | On a ring without collisions the walk for min(n, number of nodes) ends |
| Preferences.TwoNodesOnePoint | internal/cluster/sharding.go:45-47 | A hash for which two nodes join and only the later one owns a point |
| Preferences.WalkNeedNotEnd | internal/cluster/sharding.go:130-138 | On that ring the walk for both nodes goes on for ever, for every key |
| Preferences.PreferenceIsOwning | internal/cluster/sharding.go:130-138 | On any ring the preferences of a key are the names that own a point, each once; only their order depends on the key |
| Preferences.AnswerIsPresentExactlyWhen | internal/cluster/sharding.go:100-101 | If and only if, after any history under any hash: GetNode names a present node exactly when the point that answers has a member, or a node with the empty name is present |
| Preferences.NobodyAnswers | internal/cluster/sharding.go:68-73 | After a colliding join and leave GetNode answers every key with the empty name and no error |
| Preferences.QueuesStayHome | internal/cluster/sharding.go:217-225 | A leave takes no queue from the nodes that stay, a join gives none to the old ones |
| Rings.LeavingUndoesJoiningExactlyWhen | internal/cluster/sharding.go:56-77 | If and only if, for any hash and any ring: removing a node just added restores the ring exactly when its virtual nodes are distinct and none stands on a point that has an owner (for the empty name: on no point at all) |
| Rings.CollidingNodeStaysBehind | internal/cluster/sharding.go:68-73 | A hash with collisions for which a node that joined and left an empty ring does not leave it empty |
| Rings.HistoryDoesNotMatter | internal/cluster/sharding.go:32-77 | Histories of joins and leaves over names without collisions that end with the same nodes end with the same ring |
| Rings.HistoryIsWellFormed | internal/cluster/sharding.go:32-77 | For any hash: the points stay sorted, every member is a point of a present node, and the nodes are those that joined last |
| Rings.RingIsUnique | internal/cluster/sharding.go:32-53 | A ring without collisions is determined by its nodes |
| Rings.AddedIsRing | internal/cluster/sharding.go:32-53 | Joining without collisions: a point belongs to a node exactly when one of the names "node:0" to "node:149" hashes to it |
| Rings.AddedIsJoined | internal/cluster/sharding.go:42-53 | For any hash: a join adds 150 points, the hashes of those names, sorts, and gives these points to the node; all other members stay |
| Rings.PlacedByName | internal/cluster/sharding.go:44 | A virtual node stands at the hash of its name: the node, a colon, its number in decimal without leading zeros |
| Rings.ApartForSomeHash | internal/cluster/sharding.go:44 | Any two virtual nodes of any nodes are set apart by some hash |
| Rings.CollisionFreeExactlyWhen | internal/cluster/sharding.go:43-47 | If and only if: no two virtual nodes of a set of nodes collide exactly when the hash sets all their names apart |
| Rings.CollisionFreeHashExists | internal/cluster/sharding.go:43-47 | For up to 28 million nodes there is such a hash |
| Rings.TwelfthPlaceOfN | internal/cluster/sharding.go:44 | The virtual node 12 of "n" stands at the hash of the bytes 110 58 49 50 |
| Naming.NamesAreDistinct | internal/cluster/sharding.go:44 | No string names two virtual nodes, even if node names hold colons and digits |
| Naming.NameIs | internal/cluster/sharding.go:44 | If and only if: a string is the name of a virtual node exactly when Sprintf writes it |
| Rings.RemovedIsRing | internal/cluster/sharding.go:56-77 | Leaving removes exactly the virtual nodes of that node |
| Sharding.Search | internal/cluster/sharding.go:91-93 | Binary search for the first point at or after a hash |
| Sharding.ConsistentHash.AddNode | internal/cluster/sharding.go:32-53 | The loop adds the 150 points at the hashes of the virtual nodes' names, gives them to the node and sorts; a present node changes nothing |
| Sharding.ConsistentHash.RemoveNode | internal/cluster/sharding.go:56-77 | The filtering loop, with its lookups in the map it deletes from |
| Sharding.ConsistentHash.GetNode | internal/cluster/sharding.go:80-102 | Error on an empty ring, else the owner of the least point at or after the hash, or of the least of all |
| Sharding.ConsistentHash.GetNodes | internal/cluster/sharding.go:105-141 | The first min(n, number of nodes) of the preference list, found within one lap |
| Sharding.Walk | internal/cluster/sharding.go:126-138 | The walk from point to point yields the first distinct owners and ends within one lap |
| Sharding.Sharding.IsLocalQueue | internal/cluster/sharding.go:208-214 | A queue is local exactly when this node heads its preference list |
| Sharding.Sharding.GetLocalQueues | internal/cluster/sharding.go:217-225 | The local queues, in order |
| Sharding.Sharding.GetRebalanceInfo | internal/cluster/sharding.go:236-256 | Each node is counted with the queues it serves, each queue mapped to its node, and the counts add up to all queues unless the ring is empty |
| Buckets.TokensAreConserved | internal/ratelimit/ratelimit.go:37-84 | For any parameters and clock: tokens at the start plus inflow equal admitted plus spilled plus tokens left |
| Buckets.AdmissionBound | internal/ratelimit/ratelimit.go:37-84 | A run on a clock that does not run backwards admits at most the tokens at its start plus the rates in force accumulated over it |
| Buckets.AnyWindow | internal/ratelimit/ratelimit.go:37-67 | At a fixed rate any window of a run admits at most capacity plus rate times length |
| Buckets.WindowBound | internal/ratelimit/ratelimit.go:37-67 | The same from the start of a run |
| Buckets.StaysInBounds | internal/ratelimit/ratelimit.go:56-84 | With parameters that are not negative, tokens stay between zero and capacity in every run |
| Buckets.NeverOverfull | internal/ratelimit/ratelimit.go:56-84 | With any parameters there are never more tokens than the capacity |
| Buckets.SetRateInBoundsExactlyWhen | internal/ratelimit/ratelimit.go:70-84 | If and only if: setting the rate leaves tokens in bounds exactly when both capacities are not negative and the old rate has not drained the bucket |
| Buckets.DebtIsKept | internal/ratelimit/ratelimit.go:21-29 | A bucket made with a negative capacity starts in debt and keeps it |
| Buckets.PollsDoNotMatter | internal/ratelimit/ratelimit.go:94-99 | Polls of the token count, however many and whenever, change no answer to a request, at any rate |
| Buckets.RefillMerges | internal/ratelimit/ratelimit.go:56-67 | Refilling twice is refilling once |
| Buckets.TokenBucket.AllowN | internal/ratelimit/ratelimit.go:37-53 | In fields: yes exactly when the bucket is disabled or tokens plus elapsed time times rate, and capacity, reach the cost; tokens fall by the cost exactly when it is enabled and the answer is yes; a disabled one is not touched |
| Buckets.RefusedExactlyWhen | internal/ratelimit/ratelimit.go:37-53 | If and only if: a request is refused exactly when the bucket is enabled and the cost exceeds its tokens with what came in since, or its capacity |
| Buckets.FullAfterIdling | internal/ratelimit/ratelimit.go:56-67 | After any run, a bucket left alone for capacity / rate seconds admits any cost up to its capacity |
| Buckets.SteadyDemandIsMet | internal/ratelimit/ratelimit.go:37-67 | Requests of equal cost, no more than the bucket holds, that come no faster than the rate makes up for are never refused |
| Buckets.RefusedForWhatWasAdmitted | internal/ratelimit/ratelimit.go:37-53 | A request is refused only if with its cost the run would exceed the tokens and inflow it had |
| Buckets.TokenBucket.Refill | internal/ratelimit/ratelimit.go:56-67 | Adds rate times elapsed time, up to capacity |
| Buckets.TokenBucket.SetRate | internal/ratelimit/ratelimit.go:70-84 | Refills at the old rate first, then cuts the tokens to the new capacity |
| Buckets.TokenBucket.Tokens | internal/ratelimit/ratelimit.go:94-99 | Refills and reports |
| Buckets.TokenBucket.constructor | internal/ratelimit/ratelimit.go:21-29 | A full bucket, enabled exactly when capacity and rate are positive |
| PrefixScan.PrefixUpperBound | internal/store/store.go:88-98 | The in-place increment with carry yields the stem counted up followed by zeros, or none if all bytes are 0xFF |
| PrefixScan.ScanVisitsExactly | internal/store/store.go:57-61 | If and only if: a key lies in the scanned range exactly when it has the prefix or is the counted-up stem followed by fewer zeros than the prefix has trailing 0xFF bytes |
| PrefixScan.ScanIsExactExactlyWhen | internal/store/store.go:57-61 | If and only if: the range holds only keys with the prefix exactly when the prefix does not end in 0xFF or consists of nothing else |

## Left out

- REST, gRPC, clients, CLI, UI, metrics, configuration and logging: no deep invariant.
- Raft, discovery, proxying, membership and internal/cluster/fsm.go: calls around a library that is not part of this model; replicas draw ids and times of their own.
- internal/backoff: an arbitrary delay that is not negative stands for it.
- SHA-256, CRC32C and UUIDs: any function, any function, and fresh ids of 36 bytes.
- Pebble, files, fsync and buffering: the store is a map, a segment is a byte sequence, and a write that returns is durable; only `Damage`, `Interruption` and the theorems on a crash inside a write or a compaction look at one that does not.
- Failing file operations of the log in runs: there, log writes succeed; what a failed one leaves is in the contracts of Enqueue, Ack and Nack, which take it to leave the log as it was.
- internal/store job metadata and the loop of Scan: only the range it relies on is modelled.
- Limiter, GetRate and the wiring of the limiter into Enqueue: easy; Enqueue takes the limiter's answer as a parameter.
- Peek, PeekReady, ListQueues, SegmentCount, NodeCount, Nodes, OpenSegmentReadOnly, Stop and Close: easy.
- Segment file names and the directory listing: a segment is named by its number.
- Managers.Manager.Enqueue: jobs are values, so the model does not see that a job handed out by Lease is the same object that the manager keeps.
- Managers.Manager.Ack: one atomic step, although the source gives up its locks between the lookup and the change.
- Managers.Manager.Nack: one atomic step, for the same reason.
- Managers.Manager.SweepQueue: the requeue records are written after all jobs of the queue have moved, not in between; the queue's lock is held throughout, and a crash between two of the writes is part of `Theorems.NoLiveJobLost`.
- WriteAhead.Wal.Compact: each old segment is read to its end before its records are copied, and job ids that are active are given by the caller.
- WriteAhead.Wal.TotalSize: sizes and segment ids do not wrap at 64 bits.
- Compaction.CompactPreservesMeaning: says nothing of a leftover file that ends inside a frame, which no failed compaction leaves (`Compaction.FailedCompactionStaysClean`).
- Marshalling.Unmarshal: a missing and an empty header map are the same.
- Sharding.ConsistentHash.GetNodes: is called where its loop ends, which `Preferences.WalkEndsExactlyWhen` makes exact, and with n not negative, which would panic in the source.
- Buckets.TokenBucket.AllowN: tokens are real numbers, so rounding is not modelled.
