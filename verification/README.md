# A verified model of the rocos-igh startup protocol and cyclic task

rocos-igh is an EtherCAT master on top of IgH. Before it lets clients exchange data it takes a bus from "some slaves,
some PDO mappings" to "exactly the configured PDOs, verified twice, all slaves operational", and from then on it runs a
cyclic task on absolute deadlines. This project models that path and proves what it guarantees.

**PREOP configuration** (`PdoConfig`, `Protocol`, `Preop*`, `PdoVerification`, `Bus`). The nested Sync Manager / PDO / entry
configuration is compiled into a flat list of checks: the assignment objects 0x1C12/0x1C13 and the mapping objects of the CoE
dictionary (ETG.1000.6, section 5.6.7). `ConfigurePreop` sends the init commands, and then per slave reads which mappings already
match, writes the rest in six phases, and reads everything back, with retries of the whole slave under one deadline. Every
answer of the bus (slave state, clock, SDO results) is arbitrary. A ghost trace records all calls; `Protocol.Run` folds it
into a monitor and `Protocol.Safe` says that each event was allowed when it happened. The class is proved to produce only safe
traces; the theorems are about all safe traces. `PreopReport` says which error belongs to the last answer of a failed run. A *passive* device stores what an accepted write carries and changes nothing
else; `honest` in the monitor is exactly that all accepted reads so far agree with it.

**The second verification** (`Readback`, class methods `Step`, `Finish`, `Abort`) runs inside the cycle, one non-blocking step at a
time, as a state machine over the answers of the asynchronous SDO requests.

**The startup gate, the schedule and the runtime loop** (`StartupGate`, `Schedule`, `Runtime`, `CyclicTask`, `Plant`, `Timing`, `Windows`). The startup loop
is a fold over what each cycle observed; the class `CyclicTask` is proved to compute that fold, against arbitrary clocks,
master and clients. `Plant.Machine` keeps a ghost log of everything asked and done, with the answers, and the SDO requests
keep theirs; `StartupGate.StartupTrail` and `Runtime.LapsLog` say what cycles leave in them, so that the cycles a contract speaks
of are the ones that took place, and `Runtime.Metered` says what they add to deadline, counts, reports and statistics.

**Two lock-free protocols** (`Mailbox`, `StatisticsReset`) are machines of interleaved atomic steps of two threads, with
sequentially consistent atomics; the report is copied word by word, so a torn report is a state the machine could reach.

**Loading** (`Discovery`, `SlaveConfig`, `Splice`, `Eni`, `InitEncoding`, `MasterStartup`): reading mappings the configuration
leaves empty, writing them back into the text, building nested tables and the flat entry list, registration, the normalisation
of ENI descriptions, and the steps around PREOP. `Chain` joins discovery, building, the check list and PREOP configuration.

## Findings

- A mapping object that a device reports in an unexpected size makes every attempt at its slave fail in the preflight, before
  anything is written, so it is never repaired. Hence "a healthy bus is configured at the first attempt" holds exactly under
  `PreopPhases.Configurable`: non-empty mappings are readable up to the first difference, empty ones already empty.
  `ConfigurePreop` states the equivalence, `Chain.OddCountIsNeverRepaired` the family of failing inputs, and
  `Chain.OddCountExample` one of them.
- The write order and "a kept mapping was read back as expected" are proved for slaves with distinct objects
  (`Protocol.KeysDistinct`); `ConfigKeys.ConfigurationKeys` shows that PDO indices that are distinct within a slave and are not
  0x1C12/0x1C13 suffice. The final dictionary does not need it. A PDO at the index of an assignment object is accepted, and
  then the order does break: its count is restored before the assignment entries of the same object are written
  (`PreopPhases.MappedAssignmentBreaksOrder`, with `Chain.MappedAssignmentExample` as one such configuration). Other repeats
  are left open.
- The splice rejects every overlap of edits with distinct starts, but two zero-length edits at the same place are both
  applied (`Splice.EqualStartsSlipThrough`); with one empty and one non-empty edit of equal start the outcome would depend
  on the unstable sort.
- An abort after the second verification is complete turns it into a failure: only a failure is absorbing, not completion.

## Model

| member | source | states |
|---|---|---|
| PdoConfig.CompileWellFormed | src/pdo_verification.cpp:41-86 | the check list has one contiguous block per slave, each with both assignment counts; each mapping count of value k is followed by exactly its k entries with subindices 1..k |
| PdoConfig.DeviceReportsConfig | src/pdo_verification.cpp:45-86 | a dictionary that holds all checks reports, for SM2 and SM3 of every slave, exactly the configured PDOs in order with exactly the configured mappings |
| PdoConfig.EntryRoundTrip | src/pdo_discovery.cpp:76-78 | splitting a mapping word and packing an entry are inverse to each other |
| PdoDecoding.CheckListDecodes | src/pdo_verification.cpp:45-86 | reading the compiled list back gives, for every slave, its position, its two process data managers in table order and their PDOs and mappings in order, repeated indices and positions included |
| PdoDecoding.ChecksDetermineConfig | src/pdo_verification.cpp:45-86 | acceptable configurations with equal check lists have as many slaves, at the same positions, with the same managers, PDOs and mappings in the same order |
| ConfigKeys.ConfigurationKeys | src/pdo_verification.cpp:61-80 | PDO indices distinct within each slave and different from the assignment objects make all objects of a slave distinct; distinct positions keep slaves apart |
| Bytes.Pack | src/pdo_verification.cpp:306-308 | the send loop yields the little-endian bytes |
| Bytes.Unpack | src/pdo_verification.cpp:178-180 | the receive loop yields the little-endian value |
| Bytes.DecodeEncode | src/pdo_verification.cpp:306-308 | every value that fits is recovered from its bytes |
| Bytes.EncodeDecode | src/pdo_verification.cpp:287-289 | every byte string is the encoding of what it decodes to |
| PdoVerification.PdoVerification.Reset | src/pdo_verification.cpp:361-372 | everything back to the initial state |
| PdoVerification.PdoVerification.PreparePdo | src/pdo_verification.cpp:63-80 | appends the assignment, the count and the entries of one PDO, or rejects it for missing or more than 255 entries |
| PdoVerification.PdoVerification.PrepareSync | src/pdo_verification.cpp:49-81 | appends the checks of one Sync Manager exactly if its tables are usable |
| PdoVerification.PdoVerification.PrepareSyncs | src/pdo_verification.cpp:46-86 | succeeds exactly if SM2 and SM3 appear once each with usable tables, other managers being ignored |
| PdoVerification.PdoVerification.PrepareInits | src/pdo_verification.cpp:29-40 | appends the init downloads exactly if all sizes are 1, 2, 4 or 8 |
| PdoVerification.PdoVerification.PrepareSlave | src/pdo_verification.cpp:22-97 | succeeds exactly if the slave is acceptable, its handle present and its request granted |
| PdoVerification.PdoVerification.PrepareSlaves | src/pdo_verification.cpp:22-97 | slave after slave: the compiled check list, all init downloads in order, one request per slave |
| PdoVerification.PdoVerification.Prepare | src/pdo_verification.cpp:12-104 | prepared exactly if every slave is, and then with exactly the compiled check list |
| PdoVerification.PdoVerification.Guard | src/pdo_verification.cpp:216-227 | opens for its slave only after an error-free PREOP answer and a time before the deadline; otherwise fails for good |
| PdoVerification.PdoVerification.Write | src/pdo_verification.cpp:304-317 | one guarded download that the ordering rules allow; success stores exactly the phase's bytes; failure means a guard or the device refused |
| PdoVerification.PdoVerification.Read | src/pdo_verification.cpp:274-285 | one guarded upload; success yields the recorded answer |
| PdoVerification.PdoVerification.ProbeObject | src/pdo_verification.cpp:273-289 | same size keeps the attempt going, same bytes mean a match |
| PdoVerification.PdoVerification.ProbeGroup | src/pdo_verification.cpp:268-293 | reads one mapping up to the first failure or difference and leaves the cursor on its last entry |
| PdoVerification.PdoVerification.Preflight | src/pdo_verification.cpp:266-294 | marks exactly the non-empty mappings read back as expected, writes nothing, and on a passive healthy slave fails exactly if a mapping is unreadable |
| PdoVerification.PdoVerification.WritePhase | src/pdo_verification.cpp:296-318 | writes every check of the phase that is neither kept nor an empty count, in order |
| PdoVerification.PdoVerification.WritePhases | src/pdo_verification.cpp:252-319 | the six phases write every writable check of their field, in order; after them each has its last value and no phase undoes an earlier one |
| PdoVerification.PdoVerification.Compare | src/pdo_verification.cpp:168-186 | accepts exactly the expected bytes; size is judged before the buffer, the buffer before the value |
| PdoVerification.PdoVerification.Readback | src/pdo_verification.cpp:320-337 | succeeds only with exactly one accepted upload per check since the last write, in order and with its expected bytes, repeated objects included; on a passive device also if |
| PdoVerification.PdoVerification.Attempt | src/pdo_verification.cpp:264-337 | one attempt: at most four calls per check; success means that its calls are reads, then the writes of the phases in order, then one right answer per check; failure has a cause, and its error tells of the last answer; on a healthy passive slave it succeeds exactly if the slave was configurable |
| PdoVerification.PdoVerification.ConfigureSlave | src/pdo_verification.cpp:262-351 | retries until verified; gives up only at a failed guard or when all attempts are used up, with the error of the last answer; on a healthy passive bus the first attempt decides |
| PdoVerification.PdoVerification.ConfigureSlaves | src/pdo_verification.cpp:258-353 | slaves one after the other, each verified before the next is touched; the first that cannot be ends it |
| PdoVerification.PdoVerification.SendInits | src/pdo_verification.cpp:228-248 | init commands once each and in order, guarded on both sides; failure means that a guard or a device refused |
| PdoVerification.PdoVerification.SendInit | src/pdo_verification.cpp:228-248 | one of them, the next in order |
| PdoVerification.PdoVerification.Begin | src/pdo_verification.cpp:202-248 | no SDO call unless prepared, not started and pending; the deadline is fixed by the first clock reading |
| PdoVerification.PdoVerification.Rewind | src/pdo_verification.cpp:354-359 | success grants no readiness: the second verification starts afresh |
| PdoVerification.PdoVerification.ConfigurePreop | src/pdo_verification.cpp:188-360 | terminates with a safe trace and at most inits + 4 * checks * attempts SDO calls; success means every slave verified; failure means that a guard failed, an init command was refused, or all attempts at one slave failed in a row, and the error tells of the last answer; on a healthy passive bus with distinct objects it succeeds exactly if the bus is configurable, and then at the first attempt for every slave |
| PreopPhases.PhaseInOrder | src/pdo_verification.cpp:249-319 | each write of the six phases respects the ordering rules of the protocol |
| PreopPhases.MappedAssignmentBreaksOrder | src/pdo_verification.cpp:296-318 | if a mapping to be written sits at the index of an assignment object, the assignment entries of that object are written out of order |
| PreopPhases.AttemptCost | src/pdo_verification.cpp:252-337 | preflight, phases and readback make at most four calls per check |
| PreopSafety.DeadlineIsShared | src/pdo_verification.cpp:214-215 | one deadline for all slaves and attempts, fixed by the first clock reading |
| PreopSafety.SdoIsGuarded | src/pdo_verification.cpp:216-227 | every SDO call comes right after a query that saw its slave in error-free PREOP and a time before the deadline |
| PreopSafety.NothingAfterFailedGuard | src/pdo_verification.cpp:216-227 | once a check fails there is no further SDO call to any slave |
| PreopSafety.InitCommandsFirstAndOnce | src/pdo_verification.cpp:228-248 | the first SDO calls are the init commands, each at most once, in order, all accepted before any PDO access |
| PreopSafety.FailuresAreCounted | src/pdo_verification.cpp:263-350 | the count of failed attempts that decides giving up is the number of failed-attempt lines since the last verification |
| PreopDictionary.FinalDictionary | src/pdo_verification.cpp:249-358 | a successful run on a passive bus leaves exactly the dictionary of a full rewrite, whatever was kept, failed or retried |
| PreopDictionary.WritesAreOrdered | src/pdo_verification.cpp:252-319 | at each write the devices hold: both assignments zero for mapping writes, the own count zero for entries, everything in place for a nonzero assignment count |
| PreopDictionary.VerifiedSlaveIsLeftAlone | src/pdo_verification.cpp:258-352 | after its verification no SDO call touches a slave |
| PreopDictionary.LaterSlavesWait | src/pdo_verification.cpp:258-353 | behind every SDO access to a slave lies the verification of each earlier one; a slave that is never verified keeps all later ones untouched |
| PreopDictionary.MatchingMappingIsNeverWritten | src/pdo_verification.cpp:255-303 | a mapping the device already holds is written in no attempt |
| PreopDictionary.EmptyMappingIsNeverWritten | src/pdo_verification.cpp:300-303 | the count of a PDO configured without entries is never written |
| Chain.DiscoveredMappingIsNeverWritten | src/pdo_discovery.cpp:68-103 | discovery, build, the check list and the preflight agree: an unchanged discovered mapping, also an empty one, is never downloaded |
| Chain.ConfiguredBusReportsConfig | src/pdo_verification.cpp:249-358 | after a successful run the devices report exactly the configuration, and nothing else differs from the dictionary the init commands left |
| Chain.OddCountIsNeverRepaired | src/pdo_verification.cpp:286-286 | a mapping count of another size than one byte makes the bus not configurable |
| Chain.OddCountExample | src/pdo_verification.cpp:286-286 | a one-slave configuration for which this happens |
| Chain.MappedAssignmentExample | src/pdo_verification.cpp:296-318 | one configuration that `prepare` accepts and whose assignment entry is written out of order in every attempt that writes the mapping |
| PdoVerification.PdoVerification.Fail | src/pdo_verification.cpp:106-118 | keeps the first failure, with the check at the cursor |
| PdoVerification.PdoVerification.Abort | src/pdo_verification.cpp:120-122 | fails a verification from outside unless it has failed already |
| PdoVerification.PdoVerification.Step | src/pdo_verification.cpp:124-147 | takes exactly the step of the state machine, with exactly its calls |
| PdoVerification.PdoVerification.Finish | src/pdo_verification.cpp:148-166 | the step of a busy request: timeout first, then its state, size and bytes |
| Readback.FirstFailureIsKept | src/pdo_verification.cpp:106-125 | failure is absorbing, with no further call and the first failure reported |
| Readback.AtMostOneOutstanding | src/pdo_verification.cpp:133-154 | never more than one request outstanding; an outstanding one is only polled |
| Readback.CompleteMeansReadBack | src/pdo_verification.cpp:148-166 | complete means that every check was read, in order and nothing else, with its expected bytes |
| Readback.DecidedInTime | src/pdo_verification.cpp:144-155 | with calls at most p apart the result is decided within N * (1000 ms + p) |
| Readback.RequestLimit | src/pdo_verification.cpp:144-155 | within 1000 ms of its launch a busy request is waited for and the right answer accepted; from then on it fails with a request timeout |
| Readback.TwoStepsPerCheck | src/pdo_verification.cpp:133-165 | no check takes fewer than two steps |
| Readback.RightAnswersComplete | src/pdo_verification.cpp:124-166 | right and prompt answers complete it in exactly two steps per check |
| Schedule.NsRoundTrip | src/cyclic_task.cpp:21-35 | nanosecond counts and normalized timespecs correspond one to one, negative ones included, under truncating division |
| Schedule.LeastGridPoint | src/cyclic_task.cpp:102-123 | the new deadline is the least point of the old grid beyond both the old deadline and now, and the skipped points are counted |
| Schedule.ScheduleConserved | src/cyclic_task.cpp:335-336 | after k iterations the deadline is k + missed periods after the first |
| Schedule.DeadlinesIncrease | src/cyclic_task.cpp:405-406 | deadlines strictly increase and lie beyond each finish |
| Schedule.DcPhaseKept | src/cyclic_task.cpp:216-224 | with DC every deadline keeps the phase of the first application time, however long activation took |
| Schedule.NoOverflow | src/cyclic_task.cpp:110-122 | within 73 years of the epoch of the clock no intermediate value leaves 64 bits |
| Schedule.StepInNanoseconds | src/cyclic_task.cpp:102-123 | the same in nanoseconds, with a period of 1000 ns per microsecond: no grid point but those up to now is skipped |
| Schedule.ScheduleInNanoseconds | src/cyclic_task.cpp:335-336 | the deadline after any number of iterations, in nanoseconds |
| Schedule.FirstInNanoseconds | src/cyclic_task.cpp:216-224 | the first deadline: one period from now, or with DC the least later point on the grid of the origin |
| StartupGate.StartupWait.constructor | src/startup_wait.hpp:13-14 | an absolute deadline |
| StartupGate.StartupWait.Observe | src/startup_wait.hpp:16-22 | one observation of the gate |
| StartupGate.ReadyMeansFiveInARow | src/startup_wait.hpp:16-22 | ready exactly if in time and the last five observations were healthy |
| StartupGate.OpenGateIsEarned | src/cyclic_task.cpp:231-343 | if the gate opens, at least the latest 2N + 9 cycles have in their logs a poll with all slaves in OP and a bus state with the link up, all slaves answering and both working counters complete, in time: four, then the verification in consecutive cycles that read every check back, then five |
| StartupGate.HealthyBusOpensGate | src/cyclic_task.cpp:231-343 | an undisturbed bus with right answers opens it after exactly 2N + 9 cycles |
| StartupGate.StartupIsQuiet | src/cyclic_task.cpp:235-342 | nothing the startup loop does exchanges data, tells a client or opens the gate |
| StartupGate.CodeFollowsLog | src/cyclic_task.cpp:242-333 | the code of a failed startup, or its clean stop, is the one that belongs to the last answer in its log |
| CyclicTask.CyclicTask.StartupCycle | src/cyclic_task.cpp:236-273 | one cycle of the startup loop, as the fold has it; all it asked and did is the trail of its observations |
| CyclicTask.CyclicTask.StartupWake | src/cyclic_task.cpp:236-262 | sleep, clock and application time, or the end of the loop with the right code |
| CyclicTask.CyclicTask.StartupInspect | src/cyclic_task.cpp:280-283 | a failed poll ends the startup and fails a verification under way; the poll and its answer are in the log |
| CyclicTask.CyclicTask.StartupHealth | src/cyclic_task.cpp:289-303 | lost health ends the startup once the verification has begun; no clock is read then |
| CyclicTask.CyclicTask.StartupWatch | src/cyclic_task.cpp:304-325 | timeout, then at most one verification step, with exactly its calls |
| CyclicTask.CyclicTask.StartupConclude | src/cyclic_task.cpp:327-337 | an open gate takes effect only after sending and the next deadline, both in the log |
| CyclicTask.CyclicTask.StartupLoop | src/cyclic_task.cpp:235-342 | computes the fold over its cycles; log, SDO calls and finish times grow by exactly what these cycles say |
| CyclicTask.CyclicTask.Advance | src/cyclic_task.cpp:334-336 | the deadline stays where the schedule has it and every skipped period is counted |
| CyclicTask.CyclicTask.RunStartup | src/cyclic_task.cpp:216-342 | the first deadline, in phase with DC, and the startup loop from there; the whole log is that of its cycles |
| CyclicTask.CyclicTask.ApplyReset | src/cyclic_task.cpp:125-136 | exactly a pending ticket is acknowledged, while shared memory shows zeros; missed deadlines survive |
| CyclicTask.CyclicTask.Publish | src/cyclic_task.cpp:386-393 | the cycle is accounted and published; cleared exactly if a reset was pending, and before its acknowledgement |
| CyclicTask.CyclicTask.RuntimeWork | src/cyclic_task.cpp:350-400 | the log grows by the planned steps in order, all of them or up to the first that fails, whose failure is the code returned; the samples lie between the clock readings of that log |
| CyclicTask.CyclicTask.RuntimeWake | src/cyclic_task.cpp:350-373 | the same for sleep, clock and application time |
| CyclicTask.CyclicTask.RuntimeExchange | src/cyclic_task.cpp:377-400 | the same for receive, exchange, publish, send and notify |
| CyclicTask.CyclicTask.RuntimeReceive | src/cyclic_task.cpp:377-383 | receive and exchange between three clock readings |
| CyclicTask.CyclicTask.RuntimePublish | src/cyclic_task.cpp:385-393 | the bus state, and with a shared bus the wall clock and the statistics |
| CyclicTask.CyclicTask.RuntimeSend | src/cyclic_task.cpp:395-400 | clients are told only after successful sending |
| CyclicTask.WorkIsGated | src/cyclic_task.cpp:350-400 | wherever a cycle ends, data stays behind the gate and one application time is set at most |
| CyclicTask.CyclicTask.RuntimeAccount | src/cyclic_task.cpp:402-437 | totals, window and cycles agree after every cycle; a report exactly when a second has passed, and it summarizes exactly the samples of its window |
| CyclicTask.CyclicTask.CountCycle | src/cyclic_task.cpp:402-420 | one cycle adds its skipped periods, its working counter error and its link loss, and its five samples to the window |
| CyclicTask.CyclicTask.CloseWindow | src/cyclic_task.cpp:421-437 | closes the window into a report that summarizes exactly its samples, and starts the next |
| CyclicTask.CyclicTask.RuntimeCycle | src/cyclic_task.cpp:349-438 | the notes of one cycle in order up to the first that ends it; a completed one enters what it read, with its own samples and skipped periods, in window, reports, statistics and handshake |
| CyclicTask.CyclicTask.RuntimeLoop | src/cyclic_task.cpp:349-438 | the whole log is that of the completed cycles and of the one that ended it, the outcome belongs to its last answer, and the books are those of the completed cycles |
| CyclicTask.CyclicTask.RunOpen | src/cyclic_task.cpp:343-440 | the same from the gate on, with the books starting from what was missed so far |
| CyclicTask.CyclicTask.Run | src/cyclic_task.cpp:206-441 | no process data is exchanged and no client told before the gate opens; with the gate shut the log, the SDO calls and the returned code are those of the startup cycles; if it opens, these earned it, and from there on the log is that of the runtime cycles, the code belongs to the answer that ended them, and deadline, counts, reports and handshakes follow from what they read; report totals are the startup misses plus all windows |
| Runtime.WholeLap | src/cyclic_task.cpp:349-403 | a cycle that came to its end did all its steps, in order and with nothing refused |
| Runtime.LapAdds | src/cyclic_task.cpp:402-437 | such a cycle is one more lap in the log and in the books |
| Runtime.CountedAsRead | src/cyclic_task.cpp:402-420 | the k-th cycle counts the periods its own deadline step skipped, a working counter error exactly if one it read was incomplete, and a lost link exactly if it read one |
| Runtime.SampledAt | src/cyclic_task.cpp:375-413 | the k-th samples lie between the clock readings of the k-th cycle |
| Runtime.WindowsCoverLaps | src/cyclic_task.cpp:409-437 | the reports and the window under way share out all samples: none is lost, none told twice |
| Runtime.HeadingCloses | src/cyclic_task.cpp:421-437 | a window closes with the first cycle that ends a second or more after it began, and its report carries that cycle and its bus state |
| Timing.TimingSummary.Add | src/runtime_report.hpp:12-17 | count, extremes and mean describe exactly the samples added |
| Timing.CycleStatistics.Account | src/cyclic_task.cpp:52-73 | the same for the other incremental mean |
| Timing.CycleStatistics.ResetTiming | src/cyclic_task.cpp:43-49 | clears the aggregates and leaves missed deadlines |
| Timing.MeanAdds | src/cyclic_task.cpp:70-73 | both incremental formulas turn the mean of n samples into that of n + 1 |
| Timing.MeanIsBetween | src/runtime_report.hpp:12-17 | minimum <= mean <= maximum |
| Windows.BalancedPublish | src/cyclic_task.cpp:421-437 | a report's totals are the sum over all windows so far, accepted or dropped |
| Windows.TotalsGrow | src/cyclic_task.cpp:431-433 | totals never go down from report to report |
| Windows.Window.Add | src/cyclic_task.cpp:409-418 | one cycle's samples and counts enter the window |
| Windows.Window.Close | src/cyclic_task.cpp:421-436 | the report carries the window, the totals and the last bus state, and the window starts empty |
| Mailbox.SlotIsExclusive | src/runtime_report.hpp:35-53 | the two threads are never inside the slot together |
| Mailbox.ConsumedIsPublished | src/runtime_report.hpp:35-53 | consumed reports are the accepted ones, whole, in order and without repetition, up to the latest |
| Mailbox.TotalsNeverDecrease | src/runtime_report.hpp:35-53 | a total that never decreases where it is counted never does at the reporter |
| Mailbox.CallsAreAtomic | src/runtime_report.hpp:37-48 | uninterrupted calls store and hand out whole reports |
| Mailbox.RuntimeReportMailbox.Publish | src/runtime_report.hpp:37-42 | dropped exactly if the slot is taken, else stored whole |
| Mailbox.RuntimeReportMailbox.Consume | src/runtime_report.hpp:43-48 | hands out what was stored and frees the slot |
| StatisticsReset.TicketsAppliedOnce | src/statistics_reset.hpp:13-32 | acknowledged <= requested <= acknowledged + 1, and every ticket is applied once, in order, or pending |
| StatisticsReset.OkMeansApplied | src/statistics_reset.hpp:20-25 | RESULT_OK means cleared and four zeros published after the own request and before the return |
| StatisticsReset.AcknowledgedWhileZero | src/cyclic_task.cpp:125-136 | shared memory shows zeros when the ticket is acknowledged |
| StatisticsReset.BusyUntilAcknowledged | src/statistics_reset.hpp:14-17 | while a request is pending no other is submitted, and every call that comes to compare the tickets answers BUSY there |
| StatisticsReset.UnknownLeavesPending | src/statistics_reset.hpp:21-21 | OUTCOME_UNKNOWN leaves exactly that situation |
| StatisticsReset.CallsReturn | src/statistics_reset.hpp:13-26 | in every interleaving a call returns exactly what its text, read from top to bottom, returns on the values it has read |
| StatisticsReset.RequestsAreServed | src/cyclic_task.cpp:125-136 | nine steps of the cyclic thread after a request it is acknowledged, whatever lies between them |
| StatisticsReset.MissedSurvives | src/cyclic_task.cpp:43-49 | over any run, however many resets it applies or interrupts, the missed deadlines are those before it plus those its cycles missed |
| Splice.Rewrite | src/pdo_config_file.cpp:106-113 | the descending in-place replacement is the simultaneous substitution, or rejects |
| Splice.RewriteIsSimultaneous | src/pdo_config_file.cpp:99-113 | in any collection order: accepted exactly without overlap, with the same result and the length the edits add up to |
| Splice.EqualStartsSlipThrough | src/pdo_config_file.cpp:110-110 | the rewrite accepts two equal zero-length edits and inserts both texts |
| Discovery.Guard | src/pdo_discovery.cpp:30-39 | time before the deadline, then the slave in error-free PREOP; refuses only without a master or when one of them is wrong |
| Discovery.Upload | src/pdo_discovery.cpp:27-58 | one guarded read of the expected size, decoded; on a healthy bus of passive devices it fails exactly on another size |
| Discovery.DiscoverPdo | src/pdo_discovery.cpp:66-103 | reads count, entries and count again, and the result is exactly what these reads say, with equal counts; on a healthy bus of passive devices it succeeds exactly if the mapping is whole, without entries of zero length and within the room left |
| Discovery.DefaultNamesDiffer | src/pdo_discovery.cpp:92-97 | the default names of discovered entries tell direction, PDO and subindex, and no two are alike |
| Discovery.DiscoverList | src/pdo_discovery.cpp:60-104 | only empty mappings change; on a healthy bus it succeeds exactly if all of them are acceptable and the total stays within the limit |
| Discovery.Discover | src/pdo_discovery.cpp:19-116 | all empty mappings are resolved, or neither configuration nor file changes; only guarded reads; on a healthy bus of passive devices only an unacceptable mapping, a limit or the file can refuse |
| Discovery.ReportsMeansReadPdo | src/pdo_discovery.cpp:68-78 | what discovery accepts is what the device's mapping says |
| SlaveConfig.CountEntries | src/slave_config.cpp:46-52 | the number of entries of a list of PDOs |
| SlaveConfig.StorePdos | src/slave_config.cpp:54-77 | the nested tables of one direction |
| SlaveConfig.AppendEntryViews | src/slave_config.cpp:79-90 | the flat list of one direction, PDO by PDO |
| SlaveConfig.BuildSlave | src/slave_config.cpp:106-137 | outputs in SM2, inputs in SM3, flat list in the same order |
| SlaveConfig.Validate | src/slave_config.cpp:313-381 | accepts exactly named, byte-aligned, identified slaves within the limits |
| SlaveConfig.LoadedSlaveConfig.Build | src/slave_config.cpp:99-158 | builds all slaves or leaves the previous configuration |
| SlaveConfig.RegisterPdo | src/ethercat_master.cpp:299-326 | registers the entries of one PDO at the running index |
| SlaveConfig.RegisterSync | src/ethercat_master.cpp:296-327 | so for one Sync Manager |
| SlaveConfig.Register | src/ethercat_master.cpp:278-333 | the k-th location is the answer for the k-th entry, at a bit of a byte; a refusal tells of the last answer, and a mismatch error means the lists differ in length |
| SlaveConfig.FlatAgreesWithNested | src/slave_config.cpp:116-137 | the k-th flat entry is the k-th entry registration visits, and both end together |
| SlaveConfig.BuiltIsRegistrable | src/ethercat_master.cpp:288-333 | neither mismatch error can fire for a built configuration |
| Eni.Collect | src/eni_config.cpp:114-127 | rejects contradictions, collects what is selected in document order |
| Eni.MarkedInOrder | src/eni_config.cpp:114-127 | selection by marks keeps the document order |
| Eni.Arrange | src/eni_config.cpp:129-141 | the list of the Sync Manager, in its order, each declared once |
| Eni.Select | src/eni_config.cpp:96-141 | with a list exactly that list, otherwise exactly the marked declarations in document order; the exact error conditions |
| Eni.Import | src/eni_config.cpp:142-167 | SyncUnit 0, byte-aligned entries and capacity, or rejected |
| Eni.Pdos | src/eni_config.cpp:95-168 | selection, order and entries of one direction, as a function of the description, and when there are any |
| Eni.LoadSlave | src/eni_config.cpp:251-284 | one slave with its PDOs, and exactly when it is acceptable |
| Eni.Load | src/eni_config.cpp:249-292 | slave i gets position i and its imported PDOs; the exact conditions of success |
| Eni.InPlaceMeansContiguous | src/eni_config.cpp:287-289 | the check after sorting holds exactly if the positions are distinct and contiguous |
| Eni.LoadIgnoresOrder | src/eni_config.cpp:251-291 | the order of the Slave elements is irrelevant: the same slaves with the same PDOs, or rejected just the same |
| InitEncoding.ValueRoundTrip | src/pdo_config.cpp:186-207 | every value in range is read back from its two's-complement bytes |
| InitEncoding.Ranges | src/pdo_config.cpp:174-208 | the range of each type, in numbers |
| InitEncoding.EncodeCommand | src/pdo_config.cpp:174-208 | accepted exactly in the range of the type, and then the bytes mean the value |
| MasterStartup.PollSlaves | src/ethercat_master.cpp:497-508 | one query per slave, in order, up to the first that fails |
| MasterStartup.WaitForPreop | src/ethercat_master.cpp:484-568 | everything asked of the bus is whole polls between two clock readings before the deadline, and what broke off the last; done exactly when five of them running found every slave in error-free PREOP |
| MasterStartup.Activation.SupplyTime | src/ethercat_master.cpp:414-432 | a time is handed over, the first one becomes the phase origin |
| MasterStartup.Activation.Activate | src/ethercat_master.cpp:411-443 | with DC the master never activates before the origin was handed over |

## Left out

- YAML, XML and command line parsing, file access, temporary files and permissions: the model starts from parsed trees, and from an edit list with its source text.
- Locating the entries fields in the YAML text and emitting them: the splice starts from the edit list.
- The `ecrt_*` internals, clocks and sleeping: arbitrary answers; a blocking call returns.
- Error texts, abort codes, log text and the printed report: log lines are events without their text.
- Shared memory layout, semaphores and the command mailbox of rocos-shm, which is not part of this model; its limits are parameters.
- The bytes of process data and the layout plan, bus identity, slave runtime publication and the bus state summary: straight copies.
- Distributed clock settings of slaves and of ENI descriptions, and runtime option overlay: they would only add easy members.
- Rounding of doubles (reals here) and weak memory effects (sequential consistency here).
- Times and counters are unbounded integers; `Schedule.NoOverflow` gives the range in which the deadline arithmetic fits 64 bits; ticket and cycle counters are assumed not to wrap.
- Bytes.Unpack: adds each byte at its weight, where the source ORs it into its own eight bits.
- Windows.Window.Close: the report does not say whether clients are authorized, which shared memory decides.
- CyclicTask.CyclicTask.RuntimeExchange: says when process data is exchanged, not which bytes.
- Eni.Load: of the distributed clock of a Slave element only its presence and the reference flag are kept; its init commands come parsed.
- Mailbox.RuntimeReportMailbox.Publish: the class is one thread's view; interleavings are the machine's subject.
- InitEncoding.EncodeCommand: starts from the parsed number; the notation rules for hexadecimal text are left out.
