# Verified models of the Go core

This project models the parts of the repository whose correctness is not visible from one function body: the
concurrent protocols (an in-process exchange, a batch inserter, the race between deleting and preparing a
source, a parallel map), the state machines that must hold over whole runs (an id generator over an LRU, a job
runner that survives crashes, a callback tracker) and the codecs and bounded algorithms (JSON repair, ULID text,
a self-describing bitmap, WAV files, grep line output, greedy packing). `dafny verify dfyconfig.toml` checks all
of it.

How the pieces are built:

- Code that changes state is a class or a method with loops, proved against a function of the old state; the
  theorems are lemmas about those functions.
- A protocol is a state machine whose actions are the lock regions, channel operations and calls of the source,
  in any interleaving. `Runs(start, acts, s)` says that a sequence of actions leads to s, so a theorem about
  every `acts` is a theorem about every schedule. A theorem that needs an assumption comes with a run that
  breaks it, where such a run exists.
- Answers of things outside the model (a driver, a store, a pool, a context, a regular expression, the clock)
  are parameters of the actions or methods, and any answer is allowed.

| file | models |
|---|---|
| `Exchange.dfy`, `ExchangeProtocol.dfy`, `ExchangeHistory.dfy`, `ExchangeProgress.dfy` | `pkg/exchange/exchange.go`: the two indexes, all interleavings of publishing and shutdown, who is called told by the calls alone, and that a shutdown ends |
| `BatchInserter.dfy`, `BatchProtocol.dfy`, `BatchProgress.dfy` | `pkg/clickhouse/batchinsert.go`: the writer, producers, worker and Close together, and that closing ends |
| `SourceStores.dfy`, `SourceProtocol.dfy` | source preparation, deletion and sweep: each handler alone, and all of them interleaved |
| `IdGen.dfy`, `IdGenRuns.dfy` | `pkg/idgen/idgen.go`: the LRU of counters, and the ids of a run |
| `InitJob.dfy`, `InitJobOutcome.dfy`, `InitJobRuns.dfy` | `pkg/initjob`: one run, what it does told by its answers, and sequences of runs that may be killed at any step |
| `JsonText.dfy`, `JsonRepair.dfy`, `JsonRecovery.dfy`, `JsonExtract.dfy` | `pkg/encoding/json/json.go` against the grammar of RFC 8259, sections 2 to 7 |
| `Ulid.dfy` | `pkg/ulid/ulid.go`: text and order |
| `TokenEstimate.dfy`, `Merge.dfy` | `pkg/token/estimate.go` and `pkg/string/merge.go` |
| `Bitmap.dfy` | `pkg/bitmap/bitmap.go` |
| `GrepLines.dfy`, `GrepRanges.dfy`, `GrepRender.dfy`, `GrepOutput.dfy` | `pkg/rg/grep.go`, from match positions to text, and what the text says about the source |
| `Stream.dfy`, `StreamTraces.dfy`, `StreamMessages.dfy` | `pkg/eino-ext/stream/stream.go`: the tracker, its traces, and what they say about the messages |
| `Wav.dfy`, `WavFiles.dfy`, `WavConcat.dfy` | `pkg/audio/wav/wav.go`, the files byte by byte |
| `Batches.dfy`, `ParallelProtocol.dfy` | `pkg/batch` |
| `Wrappers.dfy`, `Strings.dfy`, `Decimals.dfy`, `Integers.dfy` | shared definitions; the last is 64-bit arithmetic and sums |

Where the code and what is said of it differ, the model follows the code; each difference is a theorem with its
exact condition, and where a run or an input shows it, that is a lemma too:

- `BatchInserter.Close` is documented to return the first worker error; it returns the last one, which is the
  first exactly if no later operation recorded another (`CloseReturnsLast`, `CloseReturnsFirstIff`, and a run with
  two failing sends, `CloseReturnsSecondError`).
- With a cancelled root context a row can be accepted and lost; the lost rows are exactly those sent after the
  worker had left (`LostExactlyLate`, `CancelLosesARow`).
- Five store or scheduler calls that fail after a source's row is gone can leave an orphan document, and no other
  call can; every interleaving is free of orphans exactly if none of the five fails without a later deletion making up
  for it (`OrphanFreeIff`, `OneFaultLeavesOrphan`).
- A recorded success of a job is kept in every run exactly if no runner that has the task forces it
  (`RecordKeptIff`, `ForcedRerunForgets`).
- The id strings of a key are distinct exactly under a condition on the calls and the clock
  (`KeyStringsDistinctIff`).
- An after-context that overflows 64 bits at the first matching line prints nothing (`OutputRightIff`).
- `ParallelMap` gives what `BatchMap` gives exactly if there are no items or items plus batch size minus one fits in
  64 bits; beyond that it succeeds with nothing or panics (`ParallelMapIsBatchMapIff`, `FourItemsLost`,
  `TwoItemsPanic`). With a cancelled parent context the slots are right exactly if every batch was called and gave
  its answer (`SlotsRightIff`, `CanceledParentLosesBatches`).
- `Set` and `Unset` past the bitmap's content keep the stored length exactly if the bit was already so
  (`CountKeptIff`, `SetPastContentChangesCount`).
- Of `OnError` and `OnDone` exactly one is called, last, except when a callback panics that closes the channels of a
  stream that ended well (`OneTerminalIff`).
- A model that finishes to call tools ends its stream well, while the package's test lists `tool_calls` among the
  error reasons; the code's classification is the test's exactly for the other reasons (`ToolCallsAreDone`,
  `ClassifiedAsTestedIff`).
- Repairing raw quotes is exact for some texts only (`RawQuotesRepairedIff`).
- WAV data of 2^32 bytes and more does not survive encoding (`EncodeRoundTripIff`).

A run of the job runner whose stale runs could not be aborted, or whose own record could not be created, has no
run record, so the exit-code theorem is about the others. The task table's meaning (an aborted run's tasks, the
upsert of a running task) is that of `internal/infrastructure/database/postgres/initjobstore.go`.

## Model

| member | source | states |
|---|---|---|
| Exchange.Exchange.Subscribe | pkg/exchange/exchange.go:146-181 | on the two indexes: exactly when the handler is not nil, the exchange runs and the topic has or gets a pool, the live list gains the given handler under the topic and the returned, fresh handle, and the topic a pool; otherwise nothing changes and the error names the first reason |
| Exchange.Exchange.Unsubscribe | pkg/exchange/exchange.go:187-215 | removes exactly the subscription with that handle from both indexes, keeping the order of the others, and fails with no effect exactly when no live subscription has it |
| Exchange.Append | pkg/exchange/exchange.go:178 | append writes into the list's array while it has room and into a larger copy otherwise; either way the list gains one element at its end |
| Exchange.RemoveFromList | pkg/exchange/exchange.go:200-206 | the search-and-shift loop overwrites the list's own array: one element goes, the order stays, and the cells past the shift keep their values |
| Exchange.TopicLists.Add | pkg/exchange/exchange.go:178 | on the map of arrays: the topic's list, or a new one, gains the subscription, and the lists of the other topics, whose arrays are their own, are as they were |
| Exchange.TopicLists.Remove | pkg/exchange/exchange.go:198-213 | on the map of arrays: the topic's list is shifted in place, its key dropped with its last subscription, and the other lists are as they were |
| Exchange.Exchange.SnapshotAndCount | pkg/exchange/exchange.go:240-257 | the handlers of the topic are copied in subscription order into an array of their own and counted in the WaitGroup before the lock is given up, and a nonempty snapshot has a pool |
| Exchange.Exchange.SnapshotOutlivesUnsubscribe | pkg/exchange/exchange.go:198-254 | an Unsubscribe that shifts the array a snapshot was taken from leaves the snapshot as it was |
| Exchange.Exchange.TaskDone | pkg/exchange/exchange.go:419-427 | a finished or rejected task takes one from the WaitGroup, which is not zero then, and changes nothing else |
| Exchange.Exchange.BeginTerminate | pkg/exchange/exchange.go:343-359 | running becomes terminating once; only a terminated exchange returns at once |
| Exchange.Exchange.Seal | pkg/exchange/exchange.go:367-379 | after done is closed the exchange is terminated and all pools are listed |
| Exchange.Exchange.ReleasePools | pkg/exchange/exchange.go:390-409 | every listed pool is released, in whatever order the map yields; the result joins the errors of exactly the listed pools whose ReleaseTimeout fails otherwise than with ErrPoolClosed, and is nil without a budget |
| Exchange.ForwardAppend | pkg/exchange/exchange.go:178-179 | appending to the topic's list keeps the forward index equal to the live list filtered by topic |
| Exchange.ForwardRemove | pkg/exchange/exchange.go:198-213 | shifting or dropping the topic's list keeps the forward index equal to the live list without the handle, for every topic |
| Exchange.WithoutAt | pkg/exchange/exchange.go:200-206 | in a list of ascending handles, cancelling a handle is removing one position |
| Exchange.UnsubscribeKeeps | pkg/exchange/exchange.go:187-215 | handles stay ascending and below the next one, and every live topic keeps a pool |
| Exchange.SnapshotHasPool | pkg/exchange/exchange.go:255 | a topic with a handler to call has a pool |
| ExchangeProtocol.StepKeeps | pkg/exchange/exchange.go:146-429 | every lock region, submit, start, finish, wait and release, in any order, keeps indexes, counter, log and lifecycle consistent |
| ExchangeProtocol.WaitGroupCountsInFlight | pkg/exchange/exchange.go:240-273 | in every interleaving the WaitGroup is exactly the number of handlers counted at a snapshot and not yet finished or rejected, hence never negative |
| ExchangeProtocol.DoneIsPermanent | pkg/exchange/exchange.go:343-382 | once done is closed no handler is in flight and none starts, forever |
| ExchangeProtocol.NothingRunsAfterTerminate | pkg/exchange/exchange.go:287-382 | after some Terminate returned nil no handler of Publish or PublishSync runs or ever starts again |
| ExchangeProtocol.SubmitsOnlyToLivePools | pkg/exchange/exchange.go:419-429 | a task that is about to be submitted has a pool, and no pool has been released |
| ExchangeProtocol.PublishDeliversExactlyOnce | pkg/exchange/exchange.go:240-273 | each handler subscribed at a Publish's snapshot is never run twice nor both run and reported, and is run or reported exactly once when the WaitGroup is back at zero, whatever is subscribed or cancelled meanwhile |
| ExchangeProtocol.SnapshotFrozen | pkg/exchange/exchange.go:250-273 | no later step of any call changes what a Publish delivers to; that the in-place shift of a list cannot either is SnapshotOutlivesUnsubscribe |
| ExchangeProtocol.HandlesNeverReused | pkg/exchange/exchange.go:169-180 | a cancelled handle never becomes live again |
| ExchangeProtocol.TerminateReleasesAll | pkg/exchange/exchange.go:343-409 | a Terminate that has waited and returns nil has seen all pools released, whatever other calls do, and it returns nil exactly if no release reported an error |
| ExchangeProtocol.TerminateAgain | pkg/exchange/exchange.go:343-359 | a Terminate that finds the exchange terminated returns nil at once, any other one waits, and the first one stops new events |
| ExchangeHistory.LiveAreStanding | pkg/exchange/exchange.go:146-215 | in every interleaving the live subscriptions are those of the Subscribe calls whose handle no later call cancelled, each with the topic and handler it was given and the number of subscriptions before it as its handle |
| ExchangeHistory.SnapshotAfterSubscribe | pkg/exchange/exchange.go:178-254 | right after Subscribe(t, h) the snapshot of t is the old one and h, and that of any other topic the old one |
| ExchangeHistory.PublishRunsWhatWasGiven | pkg/exchange/exchange.go:240-273 | a Publish delivers to the handlers that the standing Subscribe calls for its topic gave, in the order of those calls; no other is run or reported for it, none twice, and each once when the WaitGroup is back at zero |
| ExchangeHistory.SyncRunsWhatWasGiven | pkg/exchange/exchange.go:287-299 | a PublishSync runs those handlers one after another from the first, and all of them, once, by its return |
| ExchangeProgress.TerminatingNeverStuck | pkg/exchange/exchange.go:343-429 | in every reachable state in which some Terminate call has not returned, that call, its waiter or a task or PublishSync it waits for can take a step, without a deadline, a rejection or a new call |
| ExchangeProgress.TerminatingIsBounded | pkg/exchange/exchange.go:343-429 | from the first Terminate on, in any interleaving without another one, those steps are bounded: three for a counted handler, two for a handler of PublishSync, the pools and three for a Terminate, and what is left of each |
| ExchangeProgress.TerminateCanReturn | pkg/exchange/exchange.go:343-382 | from every state some schedule of those steps, within that bound, lets a given Terminate return |
| BatchInserter.Inserter.New | pkg/clickhouse/batchinsert.go:38-60 | refuses a nonpositive queue size or interval, otherwise starts empty |
| BatchInserter.Inserter.EnterAppend | pkg/clickhouse/batchinsert.go:95-102 | the gate counts a producer in exactly when Close has not begun |
| BatchInserter.Inserter.Select | pkg/clickhouse/batchinsert.go:104-127 | whichever ready case a select takes: only the send puts the row in, at the end of a queue that is not full; the default case of the first asks for a commit; a select with only the send ready sends |
| BatchInserter.Inserter.AppendStruct | pkg/clickhouse/batchinsert.go:193-215 | for every driver outcome: the row joins the open batch or a newly prepared one, last; if preparing or appending fails the batch is otherwise as it was and one error, with the failing call, is recorded last |
| BatchInserter.Inserter.Flush | pkg/clickhouse/batchinsert.go:219-229 | an open batch with rows is committed behind the stored rows and dropped, or, if the send fails, nothing is stored and the error is recorded; without such a batch nothing happens |
| BatchInserter.Inserter.Send | pkg/clickhouse/batchinsert.go:231-242 | the same, and an empty or sent batch is dropped too |
| BatchInserter.Inserter.FinishSealed | pkg/clickhouse/batchinsert.go:152-176 | draining the sealed queue and sending commits, if no error is recorded, the held rows and then the queued ones, in order |
| BatchInserter.AppendConserves | pkg/clickhouse/batchinsert.go:205-215 | an append that records no error adds exactly the row, last, to the rows the worker holds |
| BatchInserter.FlushConserves | pkg/clickhouse/batchinsert.go:219-229 | a flush that records no error loses and reorders nothing |
| BatchProtocol.StepKeeps | pkg/clickhouse/batchinsert.go:65-242 | every step of Append, Close, the worker and cancellation keeps gate, channel state, counter and row accounting consistent |
| BatchProtocol.Conservation | pkg/clickhouse/batchinsert.go:82-242 | while no worker error is recorded, committed rows, open batch, row in hand and queue spell the accepted rows in order; each successful Append's row occurs exactly once |
| BatchProtocol.FlushCommits | pkg/clickhouse/batchinsert.go:164-229 | in every reachable state a tick or request whose send succeeds commits the whole open batch, and while no error is recorded committed and queued rows then spell the accepted ones |
| BatchProtocol.RequestStays | pkg/clickhouse/batchinsert.go:104-135 | a producer that finds the queue full leaves a request to commit, which stays until the worker has flushed for it |
| BatchProtocol.NoSendOnClosedChannel | pkg/clickhouse/batchinsert.go:65-128 | in no interleaving can a producer still send once the data channel is closed |
| BatchProtocol.CloseNilMeansStored | pkg/clickhouse/batchinsert.go:65-77 | when Close returned nil the accepted rows were committed once each in order, up to rows left in the queue, and none is left while the root context is live |
| BatchProtocol.CloseReturnsLast | pkg/clickhouse/batchinsert.go:65-77 | in every interleaving every Close that returned gives the last error the worker recorded, and nil if there is none |
| BatchProtocol.CloseReturnsFirstIff | pkg/clickhouse/batchinsert.go:62-77 | it is the first error, as documented, exactly if only one was recorded; an error is the occurrence, numbered in the order of recording, so two failures with the same text count as different |
| BatchProtocol.CloseReturnsSecondError | pkg/clickhouse/batchinsert.go:62-77 | a run with two failing sends in which Close returns the second error |
| BatchProtocol.LostExactlyLate | pkg/clickhouse/batchinsert.go:104-151 | after the worker has left without an error, what is committed is final and the accepted rows are the committed ones followed by those sent later, so no row is lost exactly if none was sent later |
| BatchProgress.ClosingNeverStuck | pkg/clickhouse/batchinsert.go:65-242 | from the gate to its return Close, the worker or a producer inside can always take a step |
| BatchProgress.ClosingIsBounded | pkg/clickhouse/batchinsert.go:65-242 | whatever new calls, ticks and cancellations come between them, those steps are fewer than five for each Append past the gate, two for each place in the queue and seven, until Close returns |
| BatchProgress.CloseCanReturn | pkg/clickhouse/batchinsert.go:65-77 | from every state past the gate some schedule of those steps, within the measure, lets Close return |
| BatchProtocol.CancelLosesARow | pkg/clickhouse/batchinsert.go:145-151 | a run with a cancelled root context in which an accepted row is lost although Close returns nil |
| SourceStores.Stores.UpdateExisting | internal/application/sourcejob/source/prepare.go:259-276 | updates an existing row and never inserts one; affected says which |
| SourceStores.Stores.PersistUnlessObsolete | internal/application/sourcejob/source/prepare.go:248-279 | keeps the result only if the notebook exists and the row was updated; when either is gone it removes documents and parsed object, as far as those calls succeed, and when the update failed it removes nothing |
| SourceStores.Stores.Rollback | internal/application/sourcejob/source/prepare.go:282-309 | removes the source's index documents and its parsed object, nothing else |
| SourceStores.Stores.Prepare | internal/application/sourcejob/source/prepare.go:100-205 | for every combination of failing calls and panics: which documents are left, and Ready exactly if index, upload, last check and update succeed |
| SourceStores.Stores.Handle | internal/application/sourcejob/source/prepare.go:65-205 | run alone, for every combination of failing calls and panics: no other source is touched, a ready or missing source is left alone, the source becomes ready exactly when indexing, upload, the last check and the update succeed, and what was written goes exactly by a cleanup or rollback that does not fail |
| SourceStores.Stores.PurgeSources | internal/application/shared/cleanup/sweeper.go:261-294 | exactly the documents of the listed sources and the objects of their decodable keys are gone, except what a failing deletion leaves; the objects are deleted even if the documents are not, and the result joins the errors of the failing deletions |
| SourceStores.Stores.SweepSource | internal/application/shared/cleanup/sweeper.go:76-98 | a failing lookup is returned and, like an existing row, leaves everything; otherwise exactly the source's documents and the objects of its decodable keys go, except what a failing deletion leaves, and its error is returned |
| SourceProtocol.StepKeeps | internal/application/sourcejob/source/prepare.go:65-309 | every store or scheduler call of any handler keeps: whoever may still write documents of a deleted source is followed by somebody who removes them |
| SourceProtocol.NoOrphanDocuments | internal/application/notelm/source/deletesource.go:46-79 | for any interleaving of any number of creations, preparers, deletions and sweeps in which each failure, for the source after its row was gone, of five calls (update, rollback, scheduling, and the two of the sweep) was followed by a successful deletion of its documents, a deleted source with nothing in flight has no index document; all other failures are allowed |
| SourceProtocol.DeletedStaysDeleted | internal/application/sourcejob/source/prepare.go:259-276 | no preparer resurrects a deleted source's row |
| SourceProtocol.SweepSparesLiveSources | internal/application/shared/cleanup/sweeper.go:76-98 | no sweep, registered or mistaken, removes a document of a source whose row exists, failures or not |
| SourceProtocol.OneFaultLeavesOrphan | internal/application/sourcejob/source/prepare.go:259-309 | none of the five can be dropped: for each a run in which only it fails, once, and which ends with an orphan |
| SourceProtocol.OrphanFreeIff | internal/application/sourcejob/source/prepare.go:248-309 | for a set of the five calls that may fail so: all interleavings leave a settled deleted source without documents exactly if the set is empty |
| SourceProtocol.DocumentsAfter | internal/application/sourcejob/source/prepare.go:110-309 | after any call of any handler a document is there exactly if it was and no deletion of its source's documents (clearing, cleanup, rollback, sweep) succeeded, or if it was written |
| SourceProtocol.ReadyLeftAlone | internal/application/sourcejob/source/prepare.go:65-110 | a Ready source on which no preparer is at work stays Ready and keeps its documents, whatever events, preparers and sweeps come, until its row is deleted |
| SourceProtocol.ReadyWasPrepared | internal/application/sourcejob/source/prepare.go:110-205 | in every interleaving a source is Ready only if some preparer of it has indexed it and done all its steps |
| SourceProtocol.PreparingOrder | internal/application/sourcejob/source/prepare.go:65-195 | the order of one preparer's calls up to the last check: a missing or Ready row ends it, a retry clears first, a failed index is cleaned up |
| SourceProtocol.SettlingOrder | internal/application/sourcejob/source/prepare.go:248-309 | the order after it: a gone notebook or row is rolled back, and nothing follows a failed update or a rollback |
| IdGen.Cache.Touch | pkg/idgen/idgen.go:74-88 | map and list together represent one duplicate-free recency sequence; the touched key comes first, the others keep their order, and only the oldest leave when there is no room |
| IdGen.Cache.EvictDownTo | pkg/idgen/idgen.go:52-70 | the eviction loops remove exactly the least recently touched entries |
| IdGen.Cache.SetMaxKeys | pkg/idgen/idgen.go:46-60 | a nonpositive capacity means the default; the sequence is cut to the new capacity |
| IdGen.Cache.Get | pkg/idgen/idgen.go:108-130 | returns the pair the sequence model gives: the same millisecond counts up modulo 2^64, any other starts at zero |
| IdGen.StepOk | pkg/idgen/idgen.go:52-88 | the recency sequence stays duplicate-free and within capacity |
| IdGenRuns.GetSays | pkg/idgen/idgen.go:74-130 | record by record: the key comes first with the next index of the millisecond modulo 2^64, or with zero in another millisecond or if it is new; the others keep their order, and a new key drops only what has no room |
| IdGenRuns.SetMaxKeysSays | pkg/idgen/idgen.go:46-60 | the capacity is the given one or 102400, and the most recent records that fit are kept |
| IdGenRuns.SurvivesIff | pkg/idgen/idgen.go:52-88 | a key stays tracked, with its counter untouched, exactly as long as at every point fewer distinct other keys were touched since than the capacity then in force |
| IdGenRuns.ConsecutiveIdsIncreaseIff | pkg/idgen/idgen.go:108-130 | of two consecutive ids of a key the second is larger exactly if the clock advanced, or stood still while the key stayed tracked and its index did not wrap |
| IdGenRuns.RunIdsIncreaseIff | pkg/idgen/idgen.go:108-130 | with a clock that never goes back, the ids of a key strictly increase over a whole run exactly if it is never inserted again within the millisecond of its last id |
| IdGenRuns.CallsDecide | pkg/idgen/idgen.go:52-130 | whether that is so can be read off the calls and their times: between two Gets of the key in one millisecond fewer distinct other keys were asked for than the capacity then in force, and the index did not wrap |
| IdGenRuns.KeyStringsDistinctIff | pkg/idgen/idgen.go:94-130 | with such a clock the strings returned for a key are pairwise distinct exactly under that condition on the calls |
| IdGenRuns.IncreasingDistinct | pkg/idgen/idgen.go:94-130 | increasing ids are pairwise distinct |
| IdGenRuns.FormatIdInjective | pkg/idgen/idgen.go:94-100 | distinct (ms, idx) pairs print as distinct strings |
| IdGenRuns.FormatIdReads | pkg/idgen/idgen.go:94-100 | the id of a pair is the only string that is two numerals with a dash between them, the first signed, that are read back as the pair |
| Decimals.DecimalReads | pkg/idgen/idgen.go:94-100 | a number's digits are a numeral without leading zeros, and reading them gives the number |
| Decimals.NumeralIsDecimal | pkg/idgen/idgen.go:94-100 | and no other numeral is read as that number |
| Decimals.DecimalInjective | pkg/idgen/idgen.go:94-100 | distinct numbers have distinct decimal numerals |
| InitJob.NewRunner | pkg/initjob/runner.go:43-95 | succeeds exactly for a recorder, a known mode (the empty one is strict) and distinct ids of twelve digits; the ids come out sorted and forced ids are trimmed, malformed ones ignored; the error is the first failing check's |
| InitJob.CheckTasks | pkg/initjob/runner.go:57-72 | the startup loop accepts exactly the task lists without a nil task, a malformed id or a duplicate, and names the first task that fails and why |
| InitJob.ForcedIds | pkg/initjob/runner.go:78-92 | the forced set is the well-formed trimmed ids |
| InitJob.RunTasks | pkg/initjob/runner.go:157-220 | the loop performs the plan of the tasks, in order; what that plan is, RunDoes, RunReturns and RowTells say |
| InitJob.Run | pkg/initjob/runner.go:130-249 | for every answer of the world the recorder's log and the result are those of the run that RunFrame, RunDoes, RunReturns and RowTells describe |
| InitJob.SortIdsSorted | pkg/initjob/runner.go:74-76 | the ids are executed in strictly ascending order |
| InitJob.BelowIsFirstDifference | pkg/initjob/runner.go:74-76 | the order of the ids is that of their first differing characters, a proper prefix being below |
| InitJobOutcome.RunFrame | pkg/initjob/runner.go:130-155 | how a run ends that does not get to its tasks, and what comes before and after the tasks of one that does |
| InitJobOutcome.RunDoes | pkg/initjob/runner.go:157-220 | in a run that is not killed a task is marked running, executed and its outcome marked exactly if it is due (not on record or forced, and not skipped) and no due task before it stopped the run: with a record that cannot be written, a cancelled context, or in strict mode a failure; the tasks come one after the other in the order of their ids |
| InitJobOutcome.ExecutesExactly | pkg/initjob/runner.go:157-186 | exactly those tasks are executed whose running mark was written, each with the world's answer |
| InitJobOutcome.LooseExecutesAllDue | pkg/initjob/recorder.go:48-49 | in loose mode, while records can be written and nothing is cancelled, exactly all due tasks are executed, and exactly the failed ones have their failure marked |
| InitJobOutcome.StrictExecutesToFirstFailure | pkg/initjob/recorder.go:46-47 | in strict mode exactly the due tasks up to and including the first that fails are executed, and its failure is marked |
| InitJobOutcome.RunReturns | pkg/initjob/runner.go:173-234 | what a run returns and records as its status: a record that could not be written decides, then a cancelled context, then the first failure in the order of ids, and otherwise it is nil |
| InitJobOutcome.RowTells | internal/infrastructure/database/postgres/initjobstore.go:21-125 | after a run each task's row tells how far the run came with it: not begun, still running, succeeded or failed, as far as the writes were not lost |
| InitJobOutcome.EarlierRunsClosed | internal/infrastructure/database/postgres/initjobstore.go:21-50 | earlier runs left running are aborted, the others stay as they were |
| InitJobRuns.SucceededNeverRerun | pkg/initjob/runner.go:151-220 | over any sequence of runs, each killed between any two steps, a recorded success that no run both has and forces is never executed again and stays on record |
| InitJobRuns.RecordKeptIff | pkg/initjob/runner.go:151-220 | for given runners a recorded success is kept in every world and at every kill point exactly if none of them both has the task and forces it |
| InitJobRuns.ForcedRerunForgets | pkg/initjob/runner.go:165-183 | two runners that NewRunner returns: the forced run is killed after its first mark and loses the record, and the unforced one executes the task again |
| InitJobRuns.SuccessIsJustified | pkg/initjob/recorder.go:19-41 | a success on record means that the task's own Run returned nil in some process |
| InitJobRuns.MarkFollowsExecute | pkg/initjob/runner.go:186-194 | a success mark directly follows the task's successful run |
| InitJobRuns.RunExecutesAscending | pkg/initjob/runner.go:162-186 | in every run, killed or not, executed ids strictly ascend, and each was due |
| InitJobRuns.StrictStopsAtFailure | pkg/initjob/runner.go:196-219 | in strict mode nothing but the failure mark follows a failed task in the loop |
| InitJobRuns.StrictRunStops | pkg/initjob/runner.go:130-249 | over a whole strict run, killed or not, only the failure mark and the end of the run follow a failed task |
| InitJobRuns.CleanLoopRecordsAll | pkg/initjob/runner.go:157-220 | a loop without failure leaves every task recorded as succeeded or skipped by ShouldSkip |
| InitJobRuns.ExitCodeIsVerdict | pkg/initjob/runner.go:238-249 | a run that got a record and whose last write was not lost has exit code 0 exactly if it returned nil, and 1 otherwise |
| InitJobRuns.NilMeansAllSucceeded | pkg/initjob/runner.go:222-234 | Run returns nil only if every registered task is recorded as succeeded or was skipped |
| JsonRepair.IsClosingQuote | pkg/encoding/json/json.go:155-167 | a quote closes exactly if only blanks, tabs and line ends follow up to the end or to a comma, a closing brace or bracket, or a colon |
| JsonRepair.FixUnescapedQuotes | pkg/encoding/json/json.go:102-153 | the byte loop computes the repair of the whole text |
| JsonRepair.RepairOnlyEscapes | pkg/encoding/json/json.go:102-153 | the output is the input with backslashes inserted in front of quotes and nothing else |
| JsonRepair.RepairDelimits | pkg/encoding/json/json.go:102-153 | afterwards a standard lexer finds every string closed in front of a delimiter |
| JsonRepair.FixedIffDelimited | pkg/encoding/json/json.go:102-153 | the texts left alone are exactly those |
| JsonRepair.RepairIdempotent | pkg/encoding/json/json.go:102-153 | repairing twice is repairing once |
| JsonRecovery.PrintedJsonUntouched | pkg/encoding/json/json.go:102-167 | every JSON value printed with arbitrary white space is left as it is |
| JsonRecovery.RawQuotesRepairedIff | pkg/encoding/json/json.go:102-167 | a value printed with its string quotes unescaped is repaired into the correct text exactly if in no string such a quote is followed, blanks aside, by a delimiter |
| JsonExtract.ExtractFirstJSONObject | pkg/encoding/json/json.go:304-344 | the method computes the extraction from the first brace |
| JsonExtract.FindEnd | pkg/encoding/json/json.go:310-341 | the index loop over quotes, escapes and braces ends where the scan does, or finds no end |
| JsonExtract.EmbeddedObjectExtracted | pkg/encoding/json/json.go:304-344 | for any prefix without an opening brace, any printed object and any suffix, the result is exactly the object, whatever braces, quotes and escapes its strings contain |
| JsonExtract.ObjectLength | pkg/encoding/json/json.go:310-341 | the depth scan stops exactly at the object's own closing brace |
| JsonExtract.TruncatedObjectIgnored | pkg/encoding/json/json.go:304-344 | an object that is cut off anywhere before its closing brace is not extracted, not even in part |
| JsonExtract.NoBraceNothing | pkg/encoding/json/json.go:304-309 | without an opening brace nothing is extracted |
| Ulid.String | pkg/ulid/ulid.go:104-142 | the 26 buffer assignments print the 26 base-32 digits of the 128-bit big-endian number |
| Ulid.DigitsAreBase32 | pkg/ulid/ulid.go:104-142 | the hand-unrolled bit fields are those digits |
| Ulid.FrontFields | pkg/ulid/ulid.go:114-117 | the masks and shifts over three bytes are these divisions and remainders |
| Ulid.BackFields | pkg/ulid/ulid.go:118-121 | the same for the other half of a five-byte group |
| Ulid.CompareIsLex | pkg/ulid/ulid.go:80-98 | Compare decides by the first differing byte |
| Ulid.ValueOrder | pkg/ulid/ulid.go:80-98 | for digits of equal number, order by first difference is numeric order |
| Ulid.CharsOrder | pkg/ulid/ulid.go:15-17 | the alphabet preserves order and distinctness |
| Ulid.TextOrder | pkg/ulid/ulid.go:80-142 | for all identifiers byte order, numeric order and the ASCII order of the texts agree, and String is injective |
| Ulid.TextReads | pkg/ulid/ulid.go:15-142 | the text is 26 digits and lower-case letters without i, l, o and u, and reading it in base 32 gives the number that the bytes stand for |
| TokenEstimate.AsciiTable | pkg/token/estimate.go:5-11 | the table holds the slow weight of each ASCII rune |
| TokenEstimate.Estimate | pkg/token/estimate.go:39-69 | the loop with the ASCII table and the range shortcuts computes the exact weight of the text |
| TokenEstimate.WeightIsRate | pkg/token/estimate.go:13-69 | each rune's weight is exactly 420 times the rate of the first class that lists it, with the common ranges first |
| TokenEstimate.EstimateIsNextWhole | pkg/token/estimate.go:39-69 | the estimate of a text that is not empty is the least whole number above the sum of its runes' rates |
| TokenEstimate.ShortcutIff | pkg/token/estimate.go:50-66 | a range shortcut gives what the tables would exactly if they list the rune under the script it stands for |
| TokenEstimate.EstimateSubadditive | pkg/token/estimate.go:39-69 | joining texts never raises the estimate above the sum, lowers it by at most one token, and never below either part |
| Merge.MergeChunks | pkg/string/merge.go:10-43 | for a positive limit the result joins the groups of a packing in which every group fits and could not have taken the next chunk; otherwise the chunks come back |
| Merge.AppendMergedChunkGroup | pkg/string/merge.go:45-60 | a group's joined text is appended, an empty group adds nothing |
| Merge.MergeIsCorrectAndOptimal | pkg/string/merge.go:10-60 | the text is kept, every output is an input chunk or its estimate is within the limit, and no contiguous packing has fewer outputs |
| Merge.GreedyIsOptimal | pkg/string/merge.go:24-41 | no packing with groups of one chunk or with an estimate sum within the limit uses fewer groups |
| Merge.WithinLimitMerged | pkg/string/merge.go:28-31 | chunks whose estimates add up to at most the limit are merged into one text |
| Merge.OverLimitApart | pkg/string/merge.go:28-36 | two neighbours whose estimates exceed the limit together are in different outputs |
| Merge.JoinEstimate | pkg/string/merge.go:28-31 | the estimate of a joined group is at most the sum the loop kept |
| Bitmap.FindCount | pkg/bitmap/bitmap.go:80-103 | the search over the five varint lengths finds a count exactly when the bytes have that layout |
| Bitmap.OneLength | pkg/bitmap/bitmap.go:84-96 | for every byte string at most one of the lengths 1 to 5 passes, 32-bit wrap included, so the search order does not matter |
| Bitmap.NoTwoCounts | pkg/bitmap/bitmap.go:21-24 | the arithmetic behind it, for counts whose alignment wraps and for those whose does not |
| Bitmap.RoomIff | pkg/bitmap/bitmap.go:21-37 | every index below the count has a byte exactly for counts up to 2^32 - 8 |
| Bitmap.VarintRoundTrip | pkg/bitmap/bitmap.go:29-31 | reading back an encoded count gives the count and its length |
| Bitmap.VarintByte | pkg/bitmap/bitmap.go:29-31 | each byte of the count has seven bits of it, the lowest first, and every byte but the last is marked |
| Bitmap.VarintShortest | pkg/bitmap/bitmap.go:29-31 | there are no more bytes than the count needs |
| Bitmap.HistoryRoundTrip | pkg/bitmap/bitmap.go:26-104 | for counts up to 2^32 - 8 and any Set and Unset history below the count, the string reads back to the same bytes and to that count only, and each bit says whether it was set last |
| Bitmap.OneOperation | pkg/bitmap/bitmap.go:39-55 | an operation changes its own bit and no other, in any byte, and with an index inside the content it keeps the bytes readable with the same count |
| Bitmap.CountKeptIff | pkg/bitmap/bitmap.go:39-55 | for every bitmap and every index that has a byte, the bytes are still read with the same count exactly if the index is inside the content or the bit was already so |
| Bitmap.SetPastContentChangesCount | pkg/bitmap/bitmap.go:39-43 | a bitmap of one bit whose stored count a Set past the content changes |
| Bitmap.HexRoundTrip | pkg/bitmap/bitmap.go:68-76 | decoding the hexadecimal string gives the bytes back |
| Bitmap.HexSays | pkg/bitmap/bitmap.go:68-70 | byte i is written as two lower-case digits, the high half first |
| Bitmap.DecodeSays | pkg/bitmap/bitmap.go:72-76 | a string is decoded to bytes exactly if it is their digits, of either case, in pairs |
| Bitmap.Bitmap.constructor | pkg/bitmap/bitmap.go:26-37 | a new bitmap is clear content followed by the varint of its count, and valid |
| Bitmap.Bitmap.Set | pkg/bitmap/bitmap.go:39-43 | the masked byte write acts on the bytes as the set operation of the histories |
| Bitmap.Bitmap.Unset | pkg/bitmap/bitmap.go:45-49 | the masked byte write acts on the bytes as the unset operation of the histories |
| Bitmap.Bitmap.GetAllSet | pkg/bitmap/bitmap.go:58-66 | exactly the set indices below the count, ascending |
| Bitmap.Bitmap.NewFrom | pkg/bitmap/bitmap.go:72-104 | a string is read exactly when it is hexadecimal and its bytes have a layout, and then with those bytes and that count |
| Bitmap.WriteThenRead | pkg/bitmap/bitmap.go:68-104 | any valid bitmap written with String and read with NewFrom is equal to itself |
| GrepLines.SplitLines | pkg/rg/grep.go:338-361 | the starts are exactly the offsets 0 and after newlines inside the text, ascending, and each line its text up to the newline without a final carriage return |
| GrepLines.LineByOffset | pkg/rg/grep.go:364-385 | the binary search agrees with the linear scan |
| GrepLines.LineCountsNewlines | pkg/rg/grep.go:364-385 | the line of an offset inside the text is one more than the newlines before it |
| GrepRanges.MergeRanges | pkg/rg/grep.go:388-419 | the loop extending the last range in place computes the merge of the windows, in 64-bit arithmetic |
| GrepRanges.MergedIsUnion | pkg/rg/grep.go:388-419 | while no sum wraps, the ranges are sorted, disjoint, not adjacent, and cover exactly the windows |
| GrepRanges.MergedIffFits | pkg/rg/grep.go:401-402 | for all contexts that is so exactly if the first match line plus the after-context fits in 64 bits |
| GrepRender.CollectMatchLines | pkg/rg/grep.go:288-314 | each line some match meets, once, ascending |
| GrepRender.RenderRanges | pkg/rg/grep.go:268-284 | the output lines of the ranges, in order, cut to the limit; what a line says, OutputSays says |
| GrepRender.FlatMembers | pkg/rg/grep.go:269-282 | ranges that are apart list every covered line once, in order |
| GrepRender.RenderLineOutput | pkg/rg/grep.go:251-285 | the text joins the rows of the wanted lines, ascending and once each, cut to the limit; nothing when the first hit line's context wraps |
| GrepOutput.OutputSays | pkg/rg/grep.go:251-361 | told by the source text: between the newlines of the output stand, in order, exactly the lines in the context of a hit line, up to the limit, each the text from its start (counted by newlines) to its newline less a final carriage return, behind a numeral that is read as its number and a colon if asked for |
| GrepOutput.MeetsBytes | pkg/rg/grep.go:288-309 | a nonempty match inside the text hits exactly the lines of its bytes, an empty one the line of its position |
| GrepOutput.WholeSource | pkg/rg/grep.go:251-361 | if matches meet all lines, without numbers, limit and carriage returns, the output is the source less a newline at its end |
| GrepRender.RenderedUnique | pkg/rg/grep.go:251-285 | that specification determines the text |
| GrepRender.OutputRightIff | pkg/rg/grep.go:251-285 | exactly the lines within the window of a hit line are printed if and only if that context does not wrap |
| Stream.HandleStreamWithCallback | pkg/eino-ext/stream/stream.go:167-257 | for every stream and every set of panicking calls, the calls made and whether a panic gets out are the outcome that CallsAre, EachMessageAnswered, DeltasSpellFields and TerminalSays describe |
| Stream.StreamTracker.EmitByTransition | pkg/eino-ext/stream/stream.go:292-346 | the events of a transition, whose order and conditions EachMessageAnswered states by the messages' fields |
| Stream.StreamTracker.Feed | pkg/eino-ext/stream/stream.go:268-278 | the first message that is not nil starts the stream; then the transition from the previous message |
| Stream.FedBound | pkg/eino-ext/stream/stream.go:214-244 | the loop ends without an error exactly at the end of a stream none of whose messages is refused |
| StreamTraces.OneTerminalCall | pkg/eino-ext/stream/stream.go:178-212 | exactly one of error and done is called, last; before it one start and then channel events, if some fed message is not nil, and otherwise nothing |
| StreamTraces.DoneIff | pkg/eino-ext/stream/stream.go:214-256 | done is called, with the concatenated message, exactly if the stream ended well and its messages concatenate |
| StreamTraces.ChannelTrace | pkg/eino-ext/stream/stream.go:292-346 | on each channel the trace is (Begin Delta+ End)* when done and a prefix of that on an error, and the deltas spell out what the fed messages carry |
| StreamTraces.ScanPrefix | pkg/eino-ext/stream/stream.go:292-346 | what the recognizer has not rejected can be completed to a bracketed trace |
| StreamTraces.HeardOnChannel | pkg/eino-ext/stream/stream.go:308-345 | a caller with a channel's three callbacks hears all of that channel, whichever others are missing |
| StreamTraces.HeardTerminal | pkg/eino-ext/stream/stream.go:178-212 | a caller with OnError and OnDone hears exactly one of them, once and last, whichever others are missing |
| StreamTraces.NoPanicNoChange | pkg/eino-ext/stream/stream.go:199-212 | without a panicking callback the calls are the heard trace, so the theorems on traces are about them |
| StreamTraces.OneTerminalIff | pkg/eino-ext/stream/stream.go:178-212 | with panicking callbacks exactly one of OnError and OnDone is called, last, exactly unless the first panic is of a callback that closes the channels after a good end |
| StreamTraces.NothingAfterPanic | pkg/eino-ext/stream/stream.go:199-212 | after a panicking callback nothing is called but OnError with the panic, and a panic that gets out is that of the last call |
| StreamMessages.EachMessageAnswered | pkg/eino-ext/stream/stream.go:268-358 | for every stream and every further message, the calls it adds are exactly these, in the order start, ends, beginnings, deltas: a start for the first message that is not nil; the end of a channel whose field was not empty and is now; its beginning in the reverse case; and a delta with the field if it is not empty |
| StreamMessages.EndAnswered | pkg/eino-ext/stream/stream.go:199-290 | at a good end the open channels end before done; before an error nothing is added |
| StreamMessages.DeltasSpellFields | pkg/eino-ext/stream/stream.go:326-358 | for every stream the deltas on the three channels spell the reasoning, the content and the tool calls of the fed messages that are not nil |
| StreamMessages.HearerGetsFields | pkg/eino-ext/stream/stream.go:326-345 | unless a callback panics, a caller that has a channel's delta callback is given exactly that text, whichever others it has |
| StreamMessages.HeardIffPresent | pkg/eino-ext/stream/stream.go:268-345 | an event is heard exactly if its own callback is there |
| StreamMessages.TerminalSays | pkg/eino-ext/stream/stream.go:214-256 | the first message that comes with a done context or a bad finish reason ends the stream, unfed, with that reason; otherwise the end of the stream decides, and at a good end the concatenation |
| StreamMessages.GoodFinishIff | pkg/eino-ext/stream/stream.go:360-374 | a finish reason is bad exactly if it is neither blank nor, but for case and space around it, stop, length or tool_calls |
| StreamMessages.ToolCallsAreDone | pkg/eino-ext/stream/stream.go:367-374 | a stream whose model finished to call tools is done |
| StreamMessages.ClassifiedAsTestedIff | pkg/eino-ext/stream/stream_test.go:61-75 | the code classifies a reason as the package's test lists exactly unless the reason is tool_calls |
| StreamMessages.CallsAre | pkg/eino-ext/stream/stream.go:176-212 | without a panic the calls are what is heard of the trace; otherwise everything up to the first panic is called, and then OnError in the loop, nothing after OnError itself, and a panic gets out after a good end |
| Wav.Parse | pkg/audio/wav/wav.go:31-94 | on any bytes it terminates with every slice in bounds, with the result and error of the chunk walk |
| Wav.ParseSerialized | pkg/audio/wav/wav.go:43-85 | for every list of chunks and up to seven bytes after them, parsing the file gives what the chunks mean: the last fmt and the last data chunk, others skipped |
| WavFiles.FileSays | pkg/audio/wav/wav.go:43-94 | a file of chunks is read as audio exactly when every fmt chunk holds a PCM format of sixteen bytes, there is data and no format number is zero: the last data chunk in the format of the last fmt chunk; otherwise the first bad fmt chunk, missing data or a missing format is the error |
| WavFiles.CutOffFile | pkg/audio/wav/wav.go:49-66 | a last chunk that promises more than the file holds: data is taken as far as it goes unless there is none, and any other chunk is an error that names it |
| WavFiles.NotAWavFile | pkg/audio/wav/wav.go:32-40 | the errors of bytes without a WAV header |
| Wav.Encode | pkg/audio/wav/wav.go:96-118 | the writes at fixed offsets make the 44-byte header and the data, with the source's unsigned widths |
| Wav.EncodedChunks | pkg/audio/wav/wav.go:96-118 | data whose length fits its field is encoded as a fmt chunk and a data chunk |
| WavFiles.HeaderSays | pkg/audio/wav/wav.go:96-118 | each of the 44 header bytes, as little-endian numbers: the sizes, the fields given, bytes per second modulo 2^32 and bytes per frame modulo 2^16 |
| Wav.EncodeRoundTripIff | pkg/audio/wav/wav.go:31-118 | Parse returns what Encode was given exactly when the format fields are not zero and the data is shorter than 2^32 bytes |
| WavConcat.ConcatPCMs | pkg/audio/wav/wav.go:120-159 | succeeds exactly when every part is there in the head's format, with all data in order; otherwise names the first part that is not |
| WavConcat.Concat | pkg/audio/wav/wav.go:161-175 | succeeds exactly when every file parses and the formats match; the first file that does not parse is named with its error |
| WavConcat.ConcatParsesIff | pkg/audio/wav/wav.go:120-175 | the concatenation parses to all the data in the common format exactly when it is shorter than 2^32 bytes |
| WavConcat.ConcatFormatIff | pkg/audio/wav/wav.go:126-141 | parts are compatible exactly if channels, rate and width of each are those of the concatenated file |
| WavConcat.ConcatAssociates | pkg/audio/wav/wav.go:161-175 | concatenating two concatenations is concatenating all the files |
| Batches.BatchMap | pkg/batch/serial.go:9-44 | checks its arguments in order, then gives all values joined or the error of the first batch that is cancelled, fails or has a bound that wraps |
| Batches.SerialOkIff | pkg/batch/serial.go:25-43 | it succeeds exactly when every batch does, with the values in order |
| Batches.SerialSays | pkg/batch/serial.go:25-43 | the values of all batches in order, or what stopped the first batch that was not mapped: the context, seen before fn is called, a bound that wraps, or fn's error |
| Batches.AllBatchesCover | pkg/batch/serial.go:26-36 | the batches are the items, each once, in order, none empty or longer than the batch size |
| Batches.PlanBatches | pkg/batch/parallel.go:18-60 | the argument checks in order, and the workers' slices are the planned ones |
| Batches.PlannedIs | pkg/batch/parallel.go:31-60 | the planned slices are all batches if the sum fits in 64 bits; if it wraps there is none: the count is zero and the map succeeds with nothing, or it is negative and make panics, and which is decided by items plus twice the batch size |
| Batches.BatchCountIff | pkg/batch/parallel.go:31-32 | the computed count is the number of batches exactly when the sum fits in 64 bits, and otherwise no batch is run |
| Batches.Run.SetErr | pkg/batch/parallel.go:43-53 | only the first error is kept, and it cancels |
| Batches.Run.Collect | pkg/batch/parallel.go:80-95 | the first error, or the slots one after the other |
| ParallelProtocol.StepKeeps | pkg/batch/parallel.go:55-80 | every step of every worker keeps permits, slots, calls and the first error accounted for |
| ParallelProtocol.BoundedAndOnce | pkg/batch/parallel.go:63-76 | in every schedule at most maxConcurrency calls of fn run at once and each batch is called at most once |
| ParallelProtocol.ParallelEqualsSerial | pkg/batch/parallel.go:11-96 | in every schedule under a live parent context it succeeds exactly when the serial map does, with the same value; otherwise its error is what a call of fn for its batch returned before the run was cancelled |
| ParallelProtocol.ParallelMapIsBatchMap | pkg/batch/parallel.go:11-96 | with the workers ParallelMap itself plans, for all items, mappers, concurrencies and schedules: it agrees with BatchMap if the sum fits |
| ParallelProtocol.ParallelMapIsBatchMapIff | pkg/batch/parallel.go:31-32 | they agree for all mappers, concurrencies and schedules exactly if there are no items or the sum fits in 64 bits |
| ParallelProtocol.FourItemsLost | pkg/batch/parallel.go:31-32 | four items in batches of 2^63 - 1: success with nothing, where BatchMap gives the rows of all four |
| ParallelProtocol.TwoItemsPanic | pkg/batch/parallel.go:31-33 | two items in such batches: a panic, where BatchMap gives the rows |
| ParallelProtocol.SlotsRightIff | pkg/batch/parallel.go:63-96 | whatever the parent context does, without an error every slot holds its answer exactly if every batch was called and gave that answer, and then the value is the serial one |
| ParallelProtocol.SchedulesAreFinite | pkg/batch/parallel.go:55-80 | every schedule ends, within five steps a batch and two |
| ParallelProtocol.NeverStuck | pkg/batch/parallel.go:60-80 | with a positive concurrency, every state that has not returned can move on its own |
| ParallelProtocol.SomeScheduleReturns | pkg/batch/parallel.go:11-96 | for all arguments some schedule runs to its return, so agreement with BatchMap is not about nothing |
| ParallelProtocol.CanceledParentLosesBatches | pkg/batch/parallel.go:63-67 | a run with a cancelled parent context that succeeds although no batch was mapped |

## Left out

- Exchange.Exchange.Subscribe: does not model the wrap of the 64-bit handle counter, because it takes 2^64 subscriptions.
- ExchangeProtocol.NothingRunsAfterTerminate: does not model Wait, WaitContext, handler panics and the timing of ReleaseTimeout.
- ExchangeProgress.TerminatingNeverStuck: a pool is a set of accepted tasks that is open or released, so a submit that blocks on a saturated pool is a step not yet taken; a handler that publishes to its own saturated topic is not modelled.
- SourceProtocol.NoOrphanDocuments: covers, notebook-level sweeps and parsed-content object keys are not interleaved.
- SourceStores.Stores.Handle: does not model what abstracts, titles and the events of a preparation contain, only whether they end in an error or a panic.
- IdGen.Cache.Touch: the linked list of the standard library is a sequence of shared entries, and the lock around the cache is not modelled, because every operation holds it throughout.
- InitJob.Run: does not model panics of a task apart from its error, manifests, descriptions, error texts and logging.
- InitJob.SortIds: insertion sort stands in for the library's sort.
- JsonRecovery.PrintedJsonUntouched: the decoder's fallbacks, reflection over struct tags and the sonic library are not part of this model.
- JsonExtract.ExtractFirstJSONObject: white space is that of Latin-1, and a char stands for one byte.
- TokenEstimate.Estimate: does not model floating-point rounding, because weights are whole numbers of 1/420 token; a text is a sequence of runes, so joining broken UTF-8 is not covered.
- TokenEstimate.EstimateSubadditive: is about those exact weights, so a sum that rounds across a whole token is not covered.
- Merge.AppendMergedChunkGroup: does not model the builder's capacity hint.
- Ulid.String: parsing, generation and time of identifiers are the ulid library's and not part of this model.
- Bitmap.Bitmap.Set: an index without a byte panics in the source and is excluded by the precondition.
- GrepRender.RenderLineOutput: does not model regular expressions (match positions are an input) and takes texts shorter than 2^62 bytes, which no Go program can exceed; a char stands for one byte.
- GrepRender.CollectMatchLines: insertion sort stands in for the library's sort.
- Stream.HandleStreamWithCallback: does not model HandleStream and error texts; lower-casing is that of ASCII.
- WavConcat.ConcatPCMs: a nil first part panics in the source and is excluded by the precondition; DurationMs is floating point and left out.
- ParallelProtocol.ParallelEqualsSerial: is stated for a live parent context, with SlotsRightIff for any, and for an fn that answers the same for the same batch while the run is not cancelled.
- OAuth, HTTP middleware, mail, tracing, configuration, databases, Kafka, Redis locks and the LLM agents are input and output around this core.
