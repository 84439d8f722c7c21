# Verification of the media registry, the endpoint protocol and the scenario scheduler

This project models the stateful and arithmetic core of SIPpScen in Dafny 4.11 and proves what it
is meant to guarantee. `dafny verify dfyconfig.toml` checks everything.

- **Registry** (`Registry.dfy`, `SharedList.dfy`, `Listing.dfy`). A media server keeps its endpoints in one fixed
  array of nodes threaded by `short` links; the first `count` nodes from `head` are in use and the
  rest are free. `SharedLists.SharedList` is that array with its methods, in place. It is proved to
  do what `Registry.Table` (records with their nodes, and the free nodes in order) does, and the
  table is proved to answer like a plain list of records with a capacity. `Listing.dfy` reads the
  printed list back.
- **Protocol** (`Protocol.dfy`, `ProtocolInvariant.dfy`, `ProtocolTheorems.dfy`, `Scenarios.dfy`,
  `TaskFate.dfy`). The worker of the server and any number of endpoint processes as a transition
  system. The worker's mutex section is split at the signal, and an endpoint copies its record one
  field at a time after it has released the mutex, so an update can tear a copy. Any process may
  crash at any step. The exact condition for safety is proved: a node for every port in use, and
  ports that survive the endpoint's `(pj_uint16_t) atoi`. `Scenarios.dfy` holds the runs that go
  wrong without a crash or a failed fork; `TaskFate.dfy` says exactly when a handled task is taken
  over, forgotten, or never served.
- **Processes in place** (`MediaServer.dfy`, `MediaEndpoint.dfy`). The request handler, the worker
  transaction and the endpoint's signal handling as methods over the shared list; each worker
  transaction is proved to be a run of the protocol.
- **Handoff** (`Handoff.dfy`). The lock and the condition variable between the two threads of a
  client endpoint.
- **Scheduler** (`Scheduler.dfy`, `SchedulerExact.dfy`, `SchedulerLoop.dfy`). The loop that changes
  call rates by patterns, on any clock and, with exact sleeps, against its closed form.
- **Allocation arithmetic** (`Numbering.dfy`, `PortRanges.dfy`, `PoolSizing.dfy`,
  `TimeSignature.dfy`, `Mos.dfy`). Directory numbers, port ranges, pool sizes, durations, E-model.

Lemmas whose proof is an induction carry `{:induction false}`; so do lemmas over recursive
functions that need none, which keeps the verifier from trying one. `hide` keeps definitions that a
proof does not need out of its way.

## Where the code and its documentation differ

The model follows the code.

- README.md:201 calls a pattern's time points distances from the start of the run; its own example
  and SIPpScen/sippscen.py:399-401 add them up as differences. The two readings agree on a time point
  exactly when all earlier ones of the list add up to zero (`SchedulerExact.DistanceFromStartExactly`).
- SIPpScen/sippscen.py:12 asks for two seconds before a DN is reused. Because the call duration is
  cut to whole seconds first, only more than one second is guaranteed (`PoolSizing.ReuseGap`); a pool,
  computed or given, leaves the two seconds exactly when it covers the duration in milliseconds, or
  is never used twice (`PoolSizing.FullGapExactly`), and at one call a second, calls of 1500 ms do not get them
  (`PoolSizing.HalfSecondLosesGap`).
- src/media_endpoint.cpp:22 documents a default duration of 60 s. The server always passes
  `--duration`, and 0, which stands for an omitted one, makes the endpoint exit
  (src/media_endpoint.cpp:149-155), so that default is never taken by an endpoint the server
  launches. A port whose tasks all come without a duration is never served
  (`TaskFate.NoDurationNeverServed`, `TaskFate.ServedExactly`), and its entry names a process that has
  exited, to which the next task is signalled (`Scenarios.MissingDurationLeavesDeadEntry`).
- src/media_server.cpp:125-132 takes an entry whose process exists for one in use. A task handled
  between an endpoint's timeout and the removal of its entry, which a client delays until its
  streaming thread has ended (src/media_endpoint.cpp:218-244), is lost (`Scenarios.LateTaskIsLost`;
  `TaskFate.AdoptedExactly` says exactly when a task is not).
- src/rtp_endpoint.cpp:265-276 never limits the rating, so the score leaves the scale, and from a
  rating of about 3.22 down it rises with delay (`Mos.ScaleThresholds`, `Mos.DelayRaisesScoreExactly`).
- `addTask` accepts any non-zero port, while the endpoint reads 16 bits of it
  (src/media_endpoint.cpp:133). A task for port 70000 makes an endpoint copy from a null pointer
  (`Scenarios.UnrepresentablePortDereferencesNull`).
- `dn_prefix` takes its prefix from a range that includes the number after the last one; a range
  that ends at 99 is printed with a leading zero (`Numbering.NinetyNineGetsAZero`).

## Assumptions

- A launched process gets a pid that no earlier process had. `sigqueue` fails exactly when the
  process no longer exists; a child that exited and was not waited for still exists.
- `sigtimedwait` times out only with no signal pending. A signal that arrives before the endpoint
  has blocked it kills the process, which is one of the crashes the protocol allows.
- A mutex gives atomic sections. A single field is copied atomically.
- The clock of the scheduler never runs backwards and a sleep never ends early.

## Model

| member | source | states |
|---|---|---|
| Registry.RemovePreservesWellFormed | src/shared_list.cpp:150-181 | a removal, of the head, a middle, the last used, the only or any node of a full list, keeps all n nodes on one chain without repetition |
| Registry.RemoveMovesNode | src/shared_list.cpp:166-178 | seen on the chain, a removal moves one node right to the used/free boundary (to the second position when the list becomes empty) and leaves the order of all others |
| Registry.RemoveDeletesFirst | src/shared_list.cpp:150-164 | exactly the first record with the port goes, the others keep their order; nothing changes when there is none |
| Registry.ExecRefines | src/shared_list.cpp:78-193 | one call answers, and changes the records, as on a plain list with capacity n |
| Registry.RunRefinesPlainList | src/shared_list.cpp:78-193 | any sequence of calls answers as on a plain list with capacity n, whatever nodes are used and whatever freed nodes hold |
| Registry.SlotStability | src/shared_list.cpp:126-193 | the node and the contents of a port's record survive any calls that neither update nor remove that port |
| Registry.LookupAfterUpdate | src/shared_list.cpp:126-135 | an update rewrites the record of its port in the same node and no other |
| Registry.LookupAfterRemove | src/shared_list.cpp:150-181 | removing one port leaves node and contents of any other port's record alone |
| SharedLists.SharedList.Initialize | src/shared_list.cpp:86-92 | over any memory contents, links all nodes in index order with none in use |
| SharedLists.SharedList.FetchElement | src/shared_list.cpp:183-193 | returns the node of the first record with the port, or null exactly when there is none |
| SharedLists.SharedList.UpdateElement | src/shared_list.cpp:126-135 | overwrites the first record with the port in place; fails, changing nothing, when there is none |
| SharedLists.SharedList.AddElement | src/shared_list.cpp:137-149 | stores the record in the first free node; fails, changing nothing, exactly when all nodes are in use |
| SharedLists.SharedList.RemoveElement | src/shared_list.cpp:150-181 | rewires the links to the table's removal and touches no node's record; fails exactly when the port is absent |
| SharedLists.SharedList.PrintList | src/shared_list.cpp:113-124 | prints one line for each record in use, in order, also when the list is full |
| Registry.LineFits | src/shared_list.cpp:10-18 | with 32-bit numbers and an address of at most 16 characters no printed record reaches the end of its buffer |
| Registry.LinesAlign | src/shared_list.cpp:13-15 | records whose values fit their columns are printed in 119 characters |
| Listing.ElementReadsBack | src/shared_list.cpp:10-18 | a printed record determines the record: each value is found under its label |
| Listing.ListReadsBack | src/shared_list.cpp:113-124 | the printed list determines the records in use and their order |
| SharedLists.SharedList.ExecuteAll | src/shared_list.cpp:78-193 | in place, after Initialize on arbitrary memory, any sequence of calls returns what an empty plain list of that capacity returns |
| ProtocolInvariant.StepKeeps | src/media_server.cpp:104-152 | every step of worker, endpoints, timeouts and crashes keeps the invariant when the ports are representable and no more than the nodes |
| ProtocolInvariant.FetchFindsOwnRecord | src/media_endpoint.cpp:229-231 | a consumed signal finds a record, and it is the endpoint's own |
| ProtocolInvariant.DeregisterRemovesOwn | src/media_endpoint.cpp:242-244 | the record removed by port after a timeout is the endpoint's own |
| ProtocolInvariant.RoomToAdd | src/media_server.cpp:141-148 | with at most n ports named there is a free node whenever the worker launches a process |
| ProtocolTheorems.SafeExactlyWhenAdequate | src/media_server.cpp:121-150 | in every run each port has at most one live endpoint not yet deregistered, it is listed under its own pid and none holds a null or dangling pointer, if and only if there are no more ports than nodes and each is between 0 and 65535 or a multiple of 65536 |
| ProtocolTheorems.WaitingEndpointIsCoherent | src/media_endpoint.cpp:214-238 | in every run, an endpoint waiting with no signal queued or about to be sent has the address, remote port and duration of its record and of the last task handled for its port, despite torn copies and coalesced signals |
| ProtocolTheorems.EndpointTouchesOwnRecord | src/media_endpoint.cpp:229-244 | in every run, what an endpoint fetches or removes is its own record, and its removal keeps every other one |
| ProtocolTheorems.TasksConservedAndListNeverFull | src/media_server.cpp:104-149 | in every run accepted tasks are the handled ones followed by the queue, and the list is never full when a process is launched |
| ProtocolTheorems.RecordIsLatestTask | src/media_server.cpp:125-147 | in every run a record holds what the last task handled for its port asked for, under a pid launched for that port |
| ProtocolTheorems.RecordLossExactly | src/media_server.cpp:132-136 | in every run a record disappears if and only if its own endpoint deregisters, or the worker, handling a task for its port, is to signal its process and that process was waited for; the worker then goes on to launch another |
| ProtocolTheorems.TimesOutUpToDate | src/media_endpoint.cpp:216-222 | in every run an endpoint that times out while the worker is idle has the address, remote port and duration of its record and of the last task handled for its port |
| ProtocolTheorems.PortSeventyThousandIsUnsafe | src/media_server.cpp:174-178 | port 70000, which the handler accepts, makes some run unsafe |
| Scenarios.UnrepresentablePortDereferencesNull | src/media_endpoint.cpp:132-138 | for every port changed by the 16-bit reading to a non-zero one there is a run, without a crash or a failed fork, in which the endpoint fetches NULL |
| Scenarios.TooManyPortsLeaveOneUnlisted | src/shared_list.cpp:137-139 | with more ports than nodes there is such a run that leaves a live endpoint unlisted |
| Scenarios.LateTaskIsLost | src/media_endpoint.cpp:218-244 | for every usable port there is such a run that loses a handled task: idle worker, empty queue, no entry, no active process |
| Scenarios.ReapedPortIsServedAgain | src/media_server.cpp:132-146 | for every usable port there is such a run in which a process that exited on its arguments is waited for and the next task launches another, lists it under its pid, and leaves it waiting for signals |
| Scenarios.MissingDurationLeavesDeadEntry | src/media_endpoint.cpp:149-155 | for every port there is such a run of tasks without duration that leaves the port to an exited process, to which the second task was signalled |
| TaskFate.UninterruptedCopy | src/media_endpoint.cpp:229-236 | a fetch and six field copies with nothing in between leave the endpoint waiting with its record as configuration |
| TaskFate.CatchesUp | src/media_endpoint.cpp:214-240 | a waiting endpoint left alone consumes all its signals and then agrees with its record |
| TaskFate.AdoptedExactly | src/media_server.cpp:125-132 | in every run, the last task handled for a port, when it is signalled to an existing process, is taken over by the endpoint's own steps if and only if the endpoint waits, handles a signal, or will parse its arguments |
| TaskFate.SpentForever | src/media_endpoint.cpp:214-244 | an endpoint in any other phase never waits for signals again, in any run |
| TaskFate.ExistsUntilReaped | src/media_server.cpp:37-43 | in every run a process exists if and only if it was launched and not waited for; it has ended once it crashed or exited |
| TaskFate.ReplacedExactly | src/media_server.cpp:141-148 | in every run, a task whose port has no existing process, the fork succeeding, leaves the port listed under the new process; that takes the task over by its own steps if and only if the task has a duration and ports not zero in 16 bits |
| TaskFate.ReapedIsReplaced | src/media_server.cpp:132-148 | in every run, so does a task whose port is listed under a process that was waited for |
| TaskFate.ForgottenExactly | src/media_server.cpp:104-151 | in every run, a port whose task was handled is unlisted and off the worker if and only if, since the last task handled for it, a fork for it failed or its listed endpoint deregistered |
| TaskFate.ServedExactly | src/media_endpoint.cpp:129-155 | some run accepting only given tasks gets an endpoint of a port past its arguments if and only if one of them that the handler lets through has a duration and ports not zero in 16 bits |
| TaskFate.NoDurationNeverServed | src/media_endpoint.cpp:149-155 | in every run, a port whose accepted tasks are all without duration has no process past its arguments |
| MediaServers.MediaServer.AddTask | src/media_server.cpp:168-209 | a request is queued exactly when port and remote port are non-zero 32-bit numbers, the address has at most 15 characters and the duration is not negative; a number that cannot be read is a server error; a rejected request changes nothing |
| MediaServers.ValidTaskExactly | src/media_server.cpp:168-209 | the tasks the protocol accepts are those that some acceptable request asks for |
| MediaServers.MediaServer.HandleTask | src/media_server.cpp:115-150 | one turn of the worker on the list in place: a task whose port has an existing process is written to its record and signalled to it, for any other a process is launched and listed under its pid unless the fork is refused or the list is full; no other port is touched |
| MediaServers.TransactionServes | src/media_server.cpp:121-150 | the same of the protocol transaction; it forks if and only if the port has no existing process |
| MediaServers.MediaServer.Work | src/media_server.cpp:104-152 | the worker loop, the running flag being cleared at any of its readings: the first queued tasks are handled in order, one for each two readings, each by one transaction with the outcomes of the forks in turn, it stops or waits with the queue empty, and the whole is a run of the protocol |
| MediaServers.TransactionIsRun | src/media_server.cpp:121-150 | an uninterrupted transaction is a run of enabled protocol steps that ends with the worker idle |
| MediaEndpoints.MediaEndpoint.HandleSignal | src/media_endpoint.cpp:229-236 | the configuration becomes the endpoint's record; the crash on NULL happens exactly when there is none |
| MediaEndpoints.MediaEndpoint.Leave | src/media_endpoint.cpp:218-244 | stops the thread and removes the first record of the endpoint's port |
| Handoff.StreamsAreNotTorn | src/media_endpoint.cpp:72-89 | each stream uses address, port and duration of a single write of conf |
| Handoff.BlockedHasStreamedCurrent | src/media_endpoint.cpp:232-238 | whenever the thread is blocked and main is not between a write and its notify, the last stream is of the current conf |
| Handoff.WritesAreReads | src/media_endpoint.cpp:232-236 | in every run the values of conf are the initial one and then, in order, what main read, each field from the record at the time it was copied |
| Handoff.BlockedHasStreamedLastRead | src/media_endpoint.cpp:232-238 | in every run, whenever the thread is blocked and main is not between a write and its notify, the last stream has the address, port and duration main read last |
| Handoff.BlockedHasStreamedLastRecord | src/media_endpoint.cpp:232-238 | and those of the last record when it did not change while it was copied |
| Handoff.FirstIsStreamed | src/media_endpoint.cpp:64-97 | there is a run that streams the initial conf and waits |
| Handoff.NextRecordIsStreamed | src/media_endpoint.cpp:71-97 | from every reachable state in which the thread waits, a record that main gets can be streamed next, and the thread waits again |
| Handoff.AtMostOneStreamAfterStop | src/media_endpoint.cpp:53-57 | after running becomes false at most one more stream is created; once the thread has finished or hangs, exactly one when it had tested running but not taken the lock, and none otherwise |
| Handoff.HungOnlyWhenStoppedWhileLocking | src/media_endpoint.cpp:71-97 | the thread is left waiting by a joining main only when running became false between its test and its lock; then nothing but a spurious wake is possible |
| Handoff.StoppedWhileLockingHangs | src/media_endpoint.cpp:71-97 | and in that case the thread's own steps lead there |
| Handoff.FinishesExactly | src/media_endpoint.cpp:53-97 | when running has just become false the thread can end without a spurious wake if and only if it was not between its test and its lock |
| Handoff.ShutdownCanHang | src/media_endpoint.cpp:214-241 | there is a run that hangs |
| Handoff.SpuriousWakeEndsHang | src/media_endpoint.cpp:71-97 | a spurious wake ends a hang: the thread then finishes |
| Scheduler.CommandsInOrder | SIPpScen/sippscen.py:392-419 | on any clock no command is sent before it is due, due times never decrease across refills, and only the last can be sent at or after the end |
| Scheduler.TurnsOnTime | SIPpScen/sippscen.py:411-422 | on any clock each command goes out when due, or at once when that is past, but for the extra time of clock and sleep; the loop stands at its last command or, with nothing left to send, at the end |
| Scheduler.QueuesReady | SIPpScen/sippscen.py:393-410 | on any clock times and rates stay aligned, and after a refill only passed patterns have an empty queue |
| Scheduler.Terminates | SIPpScen/sippscen.py:392-422 | on any clock the loop ends within a computed number of turns when repeating patterns have positive periods |
| SchedulerExact.CommandsMatchClosedForm | SIPpScen/sippscen.py:389-419 | with exact sleeps, command c of a pattern has rate c mod n and is sent at start + (c div n)*P + the sum of deltas 0..(c mod n), whatever other patterns do; without repeat, c < n |
| SchedulerExact.DueOneAfterAnother | SIPpScen/sippscen.py:399-404 | in the closed form the first command is due its delta after the start, each other the next delta of the list, going round, after the one before |
| SchedulerExact.DistanceFromStartExactly | SIPpScen/sippscen.py:399-404 | a time point is the distance from the start (of the run or of its cycle) at which its command is sent if and only if all earlier ones of the list add up to zero |
| SchedulerExact.EverythingDueWasSent | SIPpScen/sippscen.py:392-419 | with exact sleeps, every command due before the end has been sent when the loop ends |
| SchedulerExact.TerminatesExactly | SIPpScen/sippscen.py:392-422 | with exact sleeps the loop ends if and only if every repeating pattern has a positive period or there is no time to run |
| SchedulerLoop.NextToChange | SIPpScen/sippscen.py:407 | the minimum over the heads, the first of equal ones |
| SchedulerLoop.RefillQueues | SIPpScen/sippscen.py:393-404 | refills exactly the empty queues of patterns that are not passed; an empty list of time points is an index error |
| SchedulerLoop.RunPatterns | SIPpScen/sippscen.py:387-422 | the loop in place, the running flag being cleared before any of its turns: it sends the commands of the turns, and reaches the end when repeating patterns have positive periods and the flag stays set; the last sleep is that of the last command or ends at the end, so with exact sleeps the run stops at the end but for a later last command or start; with an empty pattern it fails before the first command |
| Numbering.DnPrefix | SIPpScen/sippscen_utils.py:37-48 | the prefix ends where the two decimal strings first differ, or at the last common position |
| Numbering.RangeGeneratedExactly | SIPpScen/sippscen.py:222-232 | prefix and padded counter print the decimal string of every number of the range if and only if the number after the range has as many digits as the first |
| Numbering.GeneratedAreDistinct | SIPpScen/sippscen.py:21-24 | in that case no two generated numbers are equal |
| Numbering.NinetyNineGetsAZero | SIPpScen/sippscen_utils.py:37-48 | the range of the single number 99 is printed as 099 |
| PortRanges.PortTable.CheckOverlap | SIPpScen/sippscen_utils.py:100-131 | reports nothing only if all ranges of each server are pairwise disjoint, and exactly then when no range is empty; lists are left as they were or sorted |
| PortRanges.SortSorts | SIPpScen/sippscen_utils.py:118 | the stable sort by start orders the list and keeps its elements |
| PortRanges.NeighboursSuffice | SIPpScen/sippscen_utils.py:120-125 | comparing neighbours of a sorted list finds a clash exactly when any two ranges clash |
| PortRanges.ReportedExactly | SIPpScen/sippscen_utils.py:117-125 | with empty ranges, a report means an overlap or an empty range starting inside another |
| PortRanges.EmptyRangeFalseAlarm | SIPpScen/sippscen_utils.py:117-125 | an empty range can be reported although no port is shared |
| PortRanges.NoSharedPorts | SIPpScen/sippscen.py:208-214 | once the check passes no two endpoints of a server share an RTP or RTCP port |
| PortRanges.PassesExactly | SIPpScen/sippscen.py:208-214 | pools that have endpoints pass the check if and only if no two of them share a port |
| PortRanges.RangeIsPorts | SIPpScen/sippscen.py:16-19 | the range of a pool is exactly the RTP and RTCP ports of its endpoints |
| PortRanges.PairedPorts | SIPpScen/sippscen.py:16-19 | with an even offset RTP ports are even and RTCP takes the next one; endpoints follow two apart from the offset |
| PoolSizing.PoolSizeIs | SIPpScen/sippscen.py:207-212 | the explicit number, or the least one no smaller than cps times the whole seconds of a call and two more, and never more than the total number of calls |
| PoolSizing.ReuseGap | SIPpScen/sippscen.py:195-212 | without an explicit pool, an endpoint is reused only more than a second after its previous call ended, and not at all when the total number of calls is the pool size |
| PoolSizing.PoolIsLeast | SIPpScen/sippscen.py:208-209 | no smaller pool keeps the gap after the truncated duration |
| PoolSizing.FullGapExactly | SIPpScen/sippscen.py:208-212 | whatever sets the size of the pool, every reuse keeps the full two seconds if and only if the pool is no smaller than cps times the duration in milliseconds plus two seconds, or is as large as the number of calls |
| PoolSizing.WholeSecondsKeepGap | SIPpScen/sippscen.py:204-209 | a computed pool does so when the duration is whole seconds, and only then when its size needs no rounding |
| PoolSizing.HalfSecondLosesGap | SIPpScen/sippscen.py:204-209 | at one call a second and 1500 ms it leaves a second and a half |
| PoolSizing.RoundingCanKeepGap | SIPpScen/sippscen.py:204-209 | at 0.3 calls a second and 10500 ms rounding up makes good for the truncation |
| TimeSignature.TranslateInvertsNotation | SIPpScen/sippscen_utils.py:70-84 | any in-order choice of at least one of h, m, s, ms parts, in either case, is read as the sum of its parts |
| TimeSignature.BareNumberIsSeconds | SIPpScen/sippscen_utils.py:75-76 | a bare number is seconds |
| TimeSignature.BareNumberMayEndLine | SIPpScen/sippscen_utils.py:75-76 | also when a newline follows it |
| TimeSignature.NoDigitIsZero | SIPpScen/sippscen_utils.py:77-84 | a text that does not begin with a digit is worth nothing |
| TimeSignature.DocumentedExample | SIPpScen/sippscen_utils.py:70-84 | 3h24m23s346ms is 12263346 ms |
| Mos.MosNeverImproves | src/rtp_endpoint.cpp:265-276 | the score does not increase with loss on [0,1] nor with rtt on [0,700] ms |
| Mos.MosInScale | src/rtp_endpoint.cpp:265-276 | there it lies in [1,4.5] |
| Mos.AtLeastOneExactly | src/rtp_endpoint.cpp:273-275 | a score is at least 1 if and only if the rating is not positive or no smaller than 80 - sqrt(5400), the lesser root of r*r-160r+1000 |
| Mos.ScaleThresholds | src/rtp_endpoint.cpp:265-276 | for loss in [0,1] and any rtt: above 4.5 from a rating of -46.9 down, below 1 between 0 and 6.51, in the scale from -46.8 to 0 and from 6.52 on |
| Mos.DelayThresholds | src/rtp_endpoint.cpp:265-276 | without loss: in the scale up to 799.8 ms of rtt and from 848.6 to 1197.7, below 1 from 800 to 848.5, above 4.5 from 1198.6 on |
| Mos.LossThresholds | src/rtp_endpoint.cpp:265-276 | at 750 ms: in the scale up to a loss of 0.756, below 1 from 0.758 on |
| Mos.BestAndWorstLoss | src/rtp_endpoint.cpp:265-276 | without delay, no loss scores 4.43 and total loss 4.22 |
| Mos.DelayRaisesScoreExactly | src/rtp_endpoint.cpp:265-276 | any more delay strictly raises the score if and only if the rating is no greater than the lesser root of 3r*r-320r+1000 |
| Mos.LongDelayScoresOffScale | src/rtp_endpoint.cpp:265-276 | the score is not clamped: 2000 ms of rtt score above 5 |

## Left out

- Listing.ElementReadsBack: addresses without spaces; `Listing.ListReadsBack` also without line breaks.
- SharedLists.SharedList.RemoveElement: needs at least two nodes, because with one node line 173 of src/shared_list.cpp reads index -1; its loops and pointer updates are in methods of their own (`Locate`, `Unlink`, `Walk`, `SpliceBack`).
- MediaServers.MediaServer.Work: works on the tasks queued when it starts; tasks that arrive meanwhile are protocol steps.
- MediaServers.MediaServer.HandleTask: the branch for a failed update is missing because the update is proved to succeed.
- SchedulerLoop.RunPatterns: the flag is cleared before some turn, however late; the run that never ends is in `SchedulerExact.TerminatesExactly`.
- Numbering.RangeGeneratedExactly: for non-negative numbers.
- TimeSignature.TranslateInvertsNotation: ASCII digits and letters only; `\d` also matches other decimal digits.
- Mos.ScaleThresholds: leaves a tenth of a rating between the bounds around -46.8 and a hundredth around 6.5; the crossing of 4.5 is the root of a cubic.
- Mos.MosNeverImproves: over reals, not `float`; the callers that divide loss counts as integers are not modelled.
- Protocol: the endpoint's server mode streams once and ignores later configurations; only its configuration is modelled. Process pids are never reused.
- Shared-memory mapping, mutex internals, the destructor, HTTP routing, `fork`/`exec`/`waitpid` beyond their outcome, environment variables.
- PJSIP, sockets, statistics, InfluxDB, YAML and Jinja rendering, SIPp command lines, process stopping, console output.
- The command-line parsing of the endpoint beyond port, remote port and duration.
