# Verification of the SPD3000 command-execution stack

This project models how the `siglent_spd3000` package executes commands, from the driver's deferred batches
down to the bytes on the wire, and proves what the parts promise and that they fit together.

- **The batch engine of the driver** (`Compilation`, `Settlement`, `Attribution`, `DriverModel`, `Driver`).
  `Driver.SPD3000` and `Driver.Deferred` are classes with the fields of the originals; their methods are proved
  against the state machine of `DriverModel`. `DriverRuns` and `Scripts` hold what is kept over every run of any
  number of threads and over every user program built from `with` blocks. `BatchMeaning` and `BatchCalls` compare
  a batch with the same calls made one at a time; `Replies` says by the replies themselves when a batch succeeds, what
  it raises and what its Deferreds hold, and `Scopes` which writes are verified.
- **Timing** (`VirtualTime`, `Timing`, `PhysicalOwner`). `DirectExecutor` and the gateway's owner are classes on a
  virtual clock that only moves forward; a ghost trace records when each write and read happened. `VirtualTime` gives
  the same as functions of the device and the clock, so that statements about every clock can be made.
- **The gateway's queue** (`OwnerSchedule`, `Watching`, `OwnerMatch`). A step machine in which the worker executes one
  command at a time, so that submissions, the close sentinel, the join timeout and the death of the worker fall
  between commands. `Watching` is what a waiting thread sees of its batch, `OwnerMatch` ties the schedules to the class.
- **The gateway protocol** (`Protocol`, `Server`, `ServerTrace`, `Client`, `Channel`, `Liveness`, `Transparency`,
  `Sessions`). Messages are JSON values with an arbitrary size in bytes. `Transparency` composes client, server, owner
  and instrument and compares them with a direct connection, `Sessions` does so for whole runs of the driver.
- **Bytes and texts** (`Framing`, `Pairing`, `Numbers`, `Endpoints`). LF framing of the socket stream, replies
  meeting their queries, the setpoint printer, the gateway endpoint parser and printer.

The instrument and the transport are any deterministic state machine over states of any type (`Devices.Device`);
response parsers and expected values are arbitrary functions and values. What the environment decides (how the
stream is cut, when a wait times out, how long a batch takes, which thread moves next) is a parameter or a step.

## Where the obvious statement is false

Each of these is proved with the exact condition or a concrete input.

- An `SPD3000Error` without an index reaches the caller exactly when the batch holds no unqueryable verified
  write; otherwise the driver's own assertion fires and the batch's Deferreds stay pending
  (`Attribution.UnplacedErrorSurvives`; `Attribution.ClosedErrorIsReplaced` is a closed executor and `*LOCK`).
- A batch with a text the command constructors refuse, or with such an error, leaves its Deferreds as they were; in
  every other case it settles each exactly once (`DriverRuns.ExecutePendingSettles`).
- A transport fault hides a mismatch found earlier in the same batch, which one-at-a-time execution reports
  (`BatchMeaning.BatchWithFault` says when, `BatchMeaning.FaultHidesMismatch` gives a batch). When no command faults, the
  exceptions agree if and only if no exception escapes the parser of a readback behind a refuted operation, unless
  that one raised an equal exception (`BatchMeaning.BatchRaisesTheFirstError`; `BatchMeaning.EscapeHidesMismatch` gives a batch). Parsers that fail with
  SPD3000Errors only, as all readback parsers of the driver do, rule that out before the call
  (`BatchCalls.DriverCallsKeepTheError`).
- A direct connection does not keep the interval after a refused write: its attempts are spaced under every clock
  exactly when no refused attempt is followed by another (`VirtualTime.DirectConnectionIsSpaced`, and
  `VirtualTime.SecondAttemptIsTooEarly` for two batches). Accepted writes always keep later attempts away
  (`VirtualTime.AcceptedWritesKeepDistance`), and the gateway's owner keeps all attempts apart (`PhysicalOwner.Owner.Run`).
- What is queued behind the close sentinel is never served (`OwnerSchedule.NothingBehindSentinel`). A batch reported
  done has a result or an error unless an exception the worker does not catch ended the worker in it; that report is
  the last one ever (`OwnerSchedule.AnsweredUnlessDied`, `OwnerSchedule.DeadWorkerStays`).
- The gateway gives back the exception of a direct connection exactly when it is portable
  (`Transparency.GatewayIsTransparent`, `Transparency.PortableFaults`). A full batch of 256 commands of 4096 bytes
  is within the command limits but never fits into one message (`Transparency.FullBatchDoesNotFit`).
- A number parses back exactly if and only if it has at most 28 significant digits and none below the decimal
  context's range (`Numbers.RenderingRoundTrip`); a timer duration, which has no resolution, need not
  (`Numbers.LongDurationIsRounded`). A number that is off a multiple of the resolution by so little that the remainder
  underflows is accepted as well (`Numbers.AcceptedNumbers`, `Numbers.TinySetpointIsLost`); with exponents within the
  range an accepted setpoint always reads back exactly (`Numbers.AcceptedSetpointIsExact`).
- An endpoint survives printing and parsing exactly when its host does not begin with `[` or holds a colon
  (`Endpoints.EndpointRoundTrip`, `Endpoints.UnclosedHostExists`).
- Clients are kept from timing out exactly when one interval and the slowest round trip together stay below the
  timeout (`Liveness.HeartbeatsPreventTimeouts`). The repository's `README.md` (line 540) promises this of a
  "responsive" connection without saying how responsive.

## Model

| member | source | states |
|---|---|---|
| Compilation.Compile | src/siglent_spd3000/driver.py:1373-1393 | The loop yields the flat command list and both index tables, or the first constructor error in order |
| Compilation.AppendQueries | src/siglent_spd3000/driver.py:1378-1381 | A read's queries are appended and get consecutive indexes, or the first bad text is refused |
| Compilation.AppendWrite | src/siglent_spd3000/driver.py:1384-1393 | A write is followed immediately by its readback, whose index is the write's plus one |
| Compilation.RangesCoverFlatList | src/siglent_spd3000/driver.py:1376-1393 | The operations' index ranges are disjoint, in source order, and cover the flat list |
| Compilation.ReadIndexesPointHome | src/siglent_spd3000/driver.py:1377-1383 | Each read's indexes point at its own queries in the flat list |
| Compilation.CheckIndexesPointHome | src/siglent_spd3000/driver.py:1384-1393 | Write and readback indexes point at the operation's own write and readback; unqueryable writes have no readback |
| Devices.RunOfAppend | src/siglent_spd3000/execution.py:239-260 | Running two lists one after the other is running them together, up to the first fault |
| Devices.DecodedText | src/siglent_spd3000/execution.py:269-274 | A reply is decoded exactly if it is ASCII, to its characters without the CRs and LFs at its end |
| Devices.FaultIsPlaced | src/siglent_spd3000/execution.py:249-259 | A fault is raised as its own class, or as the timeout or connection error it stands for, with index, kind and text of its command |
| Commands.AcceptedText | src/siglent_spd3000/execution.py:27-37 | A text is accepted if and only if it has a character that is no space, no CR or LF, and ASCII only; the first lacking decides the error |
| Settlement.SettledCellsAgree | src/siglent_spd3000/driver.py:1426-1442 | Settling through the index table settles every read by the replies to its own queries |
| Settlement.RejectedCellsAgree | src/siglent_spd3000/driver.py:1420-1421 | Rejecting through the table rejects every read of the batch, and nothing else |
| Settlement.EscapesAgree | src/siglent_spd3000/driver.py:1479-1481 | The exception that leaves the verification loop is the first in source order that escapes a parser |
| Settlement.FirstFiledLeads | src/siglent_spd3000/driver.py:1426-1513 | Of all collected errors the one of the first failing operation has the strictly smallest index |
| Settlement.LeastFiled | src/siglent_spd3000/driver.py:1513-1515 | The error picked has the least index |
| Attribution.OwnerHoldsPosition | src/siglent_spd3000/driver.py:1376-1393 | Every position of the flat list lies in the range of exactly the operation that put its command there |
| Attribution.BlameOfPosition | src/siglent_spd3000/driver.py:1398-1406 | A failed index is blamed on a verification exactly when it is that write's readback |
| Attribution.FailureIsAttributed | src/siglent_spd3000/driver.py:1397-1424 | A failing readback becomes a verification error with its own write, query and expected value; any other failure is re-raised; all reads are rejected with what is raised |
| Attribution.UnplacedErrorSurvives | src/siglent_spd3000/driver.py:1398-1424 | An error without index is re-raised exactly when no write is unqueryable; otherwise the assertion replaces it and no Deferred is touched |
| Attribution.ClosedErrorIsReplaced | src/siglent_spd3000/execution.py:236-237 | On a closed executor an unreadable verified write raises the assertion in place of the connection error |
| BatchMeaning.OnlyOwnReplies | src/siglent_spd3000/driver.py:1427-1511 | Operations depend only on the replies to their own commands |
| BatchMeaning.WithoutFault | src/siglent_spd3000/driver.py:1426-1515 | Without a fault the one-by-one run raises for the first operation its replies do not confirm, and otherwise ends in the batch's state |
| BatchMeaning.FaultPosition | src/siglent_spd3000/driver.py:1395-1406 | A faulting batch has run all operations before the faulting one, and that one up to the fault |
| BatchMeaning.BatchWithFault | src/siglent_spd3000/driver.py:1395-1424 | What a faulting batch raises, and exactly when the one-by-one run raises for the same operation |
| BatchMeaning.BatchPreservesMeaning | src/siglent_spd3000/driver.py:1372-1515 | A batch succeeds exactly when its operations succeed one at a time; then instrument and Deferreds end equal |
| BatchMeaning.BatchRaisesTheFirstError | src/siglent_spd3000/driver.py:1426-1515 | Without a fault the batch raises what the one-by-one run raises if and only if no exception escapes a readback's parser behind a refuted operation |
| BatchMeaning.UnconfirmedByPlace | src/siglent_spd3000/driver.py:1444-1515 | One by one, an operation refuted before the escaping one comes first |
| BatchMeaning.NothingEscapes | src/siglent_spd3000/driver.py:1479-1494 | Readback parsers that fail with SPD3000Errors only let no exception escape, whatever the replies |
| BatchMeaning.BatchKeepsTheError | src/siglent_spd3000/driver.py:1426-1515 | With such parsers a batch without a fault raises exactly what the one-by-one run raises |
| BatchMeaning.EscapeHidesMismatch | src/siglent_spd3000/driver.py:1479-1515 | A concrete batch whose escaping exception hides an earlier mismatch |
| BatchMeaning.FaultHidesMismatch | src/siglent_spd3000/driver.py:1395-1424 | A concrete batch whose transport fault hides an earlier mismatch |
| Replies.ResultIsAccepted | src/siglent_spd3000/driver.py:1426-1515 | For every result: nothing is raised if and only if each read's parser takes the replies to its own queries, in order, and each verified write has a readback whose reply is there and parses to the expected value |
| Replies.BatchIsAccepted | src/siglent_spd3000/driver.py:1372-1515 | The same for a batch on any device, none of whose commands faults |
| Replies.FirstBadReplyIsRaised | src/siglent_spd3000/driver.py:1426-1515 | The error is that of the first such operation: the read's parser's own or one naming its queries; for a write a verification error with its command, query and expected value, and no actual value where there is no reply, the raw reply where the parser fails, the parsed value where it differs |
| Replies.FirstEscapeIsRaised | src/siglent_spd3000/driver.py:1479-1481 | The first exception of a readback's parser that is no SPD3000Error is raised as it is, before any other |
| Replies.DeferredHoldsOwnResult | src/siglent_spd3000/driver.py:1426-1442 | Each read whose replies are there has its Deferred hold what its parser makes of them, value or error, once |
| Replies.MissingReplyIsReported | src/siglent_spd3000/driver.py:1428-1436 | Otherwise it holds the protocol error naming the read's queries |
| Replies.FailureReachesEveryRead | src/siglent_spd3000/driver.py:1397-1424 | After a placed failure every Deferred of the batch holds what is raised and no value, and no other Deferred changes |
| Replies.AbandonedBatch | src/siglent_spd3000/driver.py:1343-1347 | Leaving a batch whose body raised gives each of its Deferreds the cancellation error naming its own queries and no value; other Deferreds and the instrument stay |
| Replies.RefusedTextSendsNothing | src/siglent_spd3000/driver.py:1373-1395 | A text its constructor refuses stops the batch before anything is sent, with the first such error, and leaves the driver as it is |
| Replies.AcceptedTextsAreExecuted | src/siglent_spd3000/driver.py:1394-1396 | Otherwise the executor is given all commands at once, in source order, and only instrument and Deferreds change |
| BatchCalls.FinishBeside | src/siglent_spd3000/driver.py:1395-1515 | Executing operations neither depends on nor touches other operations' Deferreds |
| BatchCalls.CallsAreBatched | src/siglent_spd3000/driver.py:1324-1353 | Calls made in a batch are executed together when it is left, over the Deferreds handed out meanwhile |
| BatchCalls.CallsAreExecuted | src/siglent_spd3000/driver.py:1275-1322 | Calls made outside a batch execute their operations one at a time |
| BatchCalls.BatchingChangesNothing | src/siglent_spd3000/driver.py:1275-1370 | The same reads, writes and verification scopes succeed in a batch exactly when they succeed one by one, and then driver, Deferreds and instrument end the same |
| BatchCalls.ScopesInBatch | src/siglent_spd3000/driver.py:1355-1370 | Verification scopes inside a batch are those outside, with the lock held once more |
| BatchCalls.BatchingKeepsTheError | src/siglent_spd3000/driver.py:1426-1515 | When nothing faults, the batch raises exactly what the calls raise one by one if and only if no exception escapes behind a refuted operation |
| BatchCalls.DriverCallsKeepTheError | src/siglent_spd3000/driver.py:1479-1515 | With verifications whose parsers fail with SPD3000Errors only, it always does when nothing faults |
| DriverModel.FailureRejects | src/siglent_spd3000/driver.py:1397-1424 | A placed failure rejects all reads with what is raised; an unplaced one leaves them alone |
| DriverModel.FinishSettlesAll | src/siglent_spd3000/driver.py:1395-1442 | Executing settles every read exactly once, whatever the executor answers or raises, exactly unless the error is unplaced |
| DriverRuns.ExecutePendingSettles | src/siglent_spd3000/driver.py:1372-1515 | The reads of a batch are settled once each if and only if its texts are accepted and its outcome is placed; nothing else changes |
| DriverRuns.NextKeepsValid | src/siglent_spd3000/driver.py:1275-1370 | Every call keeps the lock, scope and Deferred invariant and changes no settled Deferred |
| DriverRuns.NestedBatchChangesNothing | src/siglent_spd3000/driver.py:1324-1328 | A rejected nested batch leaves the outer one and the lock as they were |
| DriverRuns.EveryRunIsValid | src/siglent_spd3000/driver.py:1282-1370 | Over all runs of all threads: lock depth is overrides plus open batch, pending operations are the holder's, no Deferred is settled twice |
| DriverRuns.FreeLockMeansNoScope | src/siglent_spd3000/driver.py:1324-1365 | The lock is free exactly when no scope is open; then depth is zero and batch state empty |
| DriverRuns.SettledForGood | src/siglent_spd3000/execution.py:118-127 | A Deferred settled at some point of a run never changes after |
| DriverRuns.NothingIsForgotten | src/siglent_spd3000/driver.py:1334-1353 | A Deferred waits exactly as long as its batch is open; by the time the batch is left it is settled exactly once |
| DriverRuns.ResultsAtHandles | src/siglent_spd3000/driver.py:1426-1442 | After a batch that raises nothing, its Deferreds hold the parsed user query results in source order, no readbacks |
| DriverRuns.ReadResolves | src/siglent_spd3000/driver.py:1321-1322 | A read outside a batch that raises nothing has a value to return |
| DriverRuns.ResponsesOfBatch | src/siglent_spd3000/driver.py:1348-1351 | The values handed back on leaving a batch are exactly those results |
| Scripts.Exec | src/siglent_spd3000/driver.py:279-345 | Any nesting of batch and verification scopes, left by return or exception, restores lock depth and scopes |
| Scripts.ScriptForgetsNothing | src/siglent_spd3000/driver.py:279-345 | Whatever is caught or cut short inside, no Deferred is left waiting except those of a batch still open outside |
| Scripts.NothingIsSentInBatch | src/siglent_spd3000/driver.py:1303-1322 | User code inside a batch, however nested, leaves the instrument as it is |
| Scripts.FailedBatch | src/siglent_spd3000/driver.py:279-300 | A batch whose body raises lets that exception out, sends nothing, and cancels every read made in it |
| Scripts.CompletedBatch | src/siglent_spd3000/driver.py:1334-1353 | A batch whose body completes is executed once, on leaving, over exactly what was collected |
| Scopes.InnermostScopeDecides | src/siglent_spd3000/driver.py:1355-1370 | Entering a verification scope makes its choice count, leaving it the one outside; without scopes the driver's own setting counts |
| Scopes.NestedScopes | src/siglent_spd3000/driver.py:1367-1370 | Over any nesting the innermost choice counts |
| Scopes.QueuedWriteIsChecked | src/siglent_spd3000/driver.py:1282-1301 | A write in a batch is queued behind the others with no check, exactly its own verification, or the complaint with the given or the standard reason, as the innermost scope says |
| Scopes.ExecutedWriteIsChecked | src/siglent_spd3000/driver.py:1282-1302 | A write outside a batch is executed at once with that check |
| Scopes.UnscopedWriteIsChecked | src/siglent_spd3000/driver.py:1367-1370 | Without a scope the check is that of the driver's own setting |
| Scopes.OwnSetting | src/siglent_spd3000/driver.py:1053-1058 | The driver's own setting counts where no scope is open, and only there |
| Scopes.InnerScopeSwitchesOff | src/siglent_spd3000/driver.py:1367-1370 | A concrete write inside verify_writes(False) inside verify_writes(True) is not verified |
| Scopes.RawCommands | src/siglent_spd3000/driver.py:1517-1527 | Raw lists are refused in a batch and under verification without any effect, and otherwise executed as they are |
| Driver.Deferred.Read | src/siglent_spd3000/execution.py:101-111 | The stored error wins, then the value, else the pending error |
| Driver.Deferred.Resolve | src/siglent_spd3000/execution.py:118-119 | Resolving sets the value and counts as one settlement |
| Driver.Deferred.Reject | src/siglent_spd3000/execution.py:121-127 | Rejecting sets the error and counts as one settlement |
| Driver.SPD3000.ResolveReads | src/siglent_spd3000/driver.py:1426-1442 | The loop settles every read by its own replies and files each error under the read's first index |
| Driver.SPD3000.ConfirmWrites | src/siglent_spd3000/driver.py:1444-1511 | The loop files the verification errors, and ends with the first exception that escapes a parser |
| Driver.SPD3000.FindBlamed | src/siglent_spd3000/driver.py:1398-1406 | The first verified write whose readback index is the failed index, both possibly absent |
| Driver.SPD3000.FailBatch | src/siglent_spd3000/driver.py:1397-1424 | The except branch does what the specification says of a raised outcome |
| Driver.SPD3000.CompleteBatch | src/siglent_spd3000/driver.py:1426-1515 | The rest of the engine does what the specification says of returned values |
| Driver.SPD3000.PickError | src/siglent_spd3000/driver.py:1513-1515 | The error raised is that of the first failing operation in source order |
| Driver.SPD3000.ExecutePendingOperations | src/siglent_spd3000/driver.py:1372-1515 | The whole engine refines one step of the state machine: same world, Deferreds and exception |
| Driver.SPD3000.ShouldVerifyWrites | src/siglent_spd3000/driver.py:1367-1370 | The innermost override decides whether writes are verified, and without one the global setting |
| Driver.SPD3000.DoWrite | src/siglent_spd3000/driver.py:1275-1299 | A write takes the verification in force, and is queued in a batch or executed |
| Driver.SPD3000.DoRead | src/siglent_spd3000/driver.py:1308-1322 | A read hands out a fresh Deferred, and is queued in a batch or executed |
| Driver.SPD3000.Query | src/siglent_spd3000/driver.py:1308-1322 | A query returns its Deferred in a batch and the Deferred's value outside |
| Driver.SPD3000.BeginBatch | src/siglent_spd3000/driver.py:1324-1332 | Opening a batch takes the lock; inside a batch it is refused and the lock given back |
| Driver.SPD3000.EndBatch | src/siglent_spd3000/driver.py:1334-1353 | Leaving a batch resets it, executes or cancels, releases the lock, and returns the values only on success |
| Driver.SPD3000.ExecuteAndCollect | src/siglent_spd3000/driver.py:1348-1351 | The responses are the values of the batch's Deferreds, and none when something is raised |
| Driver.SPD3000.CancelAll | src/siglent_spd3000/driver.py:1343-1347 | Cancelling rejects every pending read of the batch and nothing else |
| Driver.SPD3000.CollectResponses | src/siglent_spd3000/driver.py:1350-1351 | The list is extended by the Deferreds' values in order |
| Driver.SPD3000.BeginVerifyWrites | src/siglent_spd3000/driver.py:1355-1357 | An override is pushed and the lock taken |
| Driver.SPD3000.EndVerifyWrites | src/siglent_spd3000/driver.py:1359-1365 | The innermost override is popped and the lock released |
| Driver.SPD3000.ExecuteRawBatch | src/siglent_spd3000/driver.py:1517-1527 | Raw batches are refused in a batch and under verification, otherwise executed as they are |
| Timing.DirectExecutor.WaitBeforeWrite | src/siglent_spd3000/execution.py:262-267 | Afterwards the interval since the last accepted write is over |
| Timing.DirectExecutor.ExecuteOne | src/siglent_spd3000/execution.py:240-248 | One command refines the timed exchange: same instrument, times, write time and wire |
| Timing.DirectExecutor.ExecuteInOrder | src/siglent_spd3000/execution.py:238-260 | The loop refines the timed run of the batch |
| Timing.DirectExecutor.Execute | src/siglent_spd3000/execution.py:234-260 | The outcome is that of running the commands; the wire holds them up to the failing one; times and the write time left for the next batch are those of the timed run |
| Timing.BatchOnWire | src/siglent_spd3000/execution.py:238-267 | What a batch puts on the wire is spaced by the interval and kept away from the write time it started from |
| VirtualTime.TimeDoesNotMatter | src/siglent_spd3000/execution.py:238-260 | The clock does not change what a batch does |
| VirtualTime.AcceptedWritesKeepDistance | src/siglent_spd3000/execution.py:241-243 | Over any batches on one connection, from the end of an accepted write to the start of any later attempt there is at least the interval |
| VirtualTime.ShapeIsTimeless | src/siglent_spd3000/execution.py:238-260 | Which attempts are made, accepted and refused does not depend on the clock |
| VirtualTime.DirectConnectionIsSpaced | src/siglent_spd3000/execution.py:241-246 | All attempts are spaced under every clock if and only if no refused one is followed by another |
| VirtualTime.SecondAttemptIsTooEarly | src/siglent_spd3000/execution.py:242-243 | Two batches and an exact clock for which the attempt after a refused one starts at once |
| Timing.DirectExecutor.Close | src/siglent_spd3000/execution.py:276-280 | The transport is closed once |
| Timing.RunEndsAtFault | src/siglent_spd3000/execution.py:239-259 | Nothing after a failing command is run |
| PhysicalOwner.BatchAppended | src/siglent_spd3000/gateway/server.py:98-102 | A batch that starts the larger of both intervals after the previous one keeps all writes and reads spaced |
| PhysicalOwner.ChargedAppended | src/siglent_spd3000/gateway/server.py:108-111 | Noting the completion of any batch, failed or not, keeps the next one at its distance |
| PhysicalOwner.Owner.WaitForTurn | src/siglent_spd3000/gateway/server.py:98-102 | Afterwards the larger of the two sessions' intervals since the last completion is over |
| PhysicalOwner.Owner.NoteCompletion | src/siglent_spd3000/gateway/server.py:108-111 | The finally branch restores the spacing invariant |
| PhysicalOwner.Owner.ExecuteInTurn | src/siglent_spd3000/gateway/server.py:98-111 | One batch under its own session's interval, with the outcome of running it |
| PhysicalOwner.Owner.Serve | src/siglent_spd3000/gateway/server.py:96-111 | A work item is completed once with exactly one of result and error |
| PhysicalOwner.Owner.ServeNext | src/siglent_spd3000/gateway/server.py:91-111 | Serving the next entry extends the run of completed batches by one |
| PhysicalOwner.Owner.Run | src/siglent_spd3000/gateway/server.py:91-111 | Everything ahead of the sentinel is completed once, in order, nothing behind it; the wire holds the batches one after the other, and from any write attempt to any later one and from each query's write to its read the intervals are kept |
| OwnerMatch.TurnServesABatch | src/siglent_spd3000/gateway/server.py:93-111 | Taking, entering, sending each command and publishing is what serving one batch does |
| OwnerMatch.SchedulesMatchOwner | src/siglent_spd3000/gateway/server.py:71-111 | Whatever the schedule, an idle worker that turned no batch away has left the instrument, lines and outcomes that Owner.Run leaves |
| OwnerSchedule.EveryScheduleIsValid | src/siglent_spd3000/gateway/server.py:71-116 | Under every schedule the wire is one unbroken piece per batch taken, in queue order, plus what the current batch has sent |
| OwnerSchedule.BatchesDoNotInterleave | src/siglent_spd3000/gateway/server.py:91-111 | Once a later batch's command is on the wire, no earlier batch's follows |
| OwnerSchedule.AnsweredBatches | src/siglent_spd3000/gateway/server.py:103-107 | A batch answered with values was sent in full, one answered with an error up to the command the error names |
| OwnerSchedule.SentAsReported | src/siglent_spd3000/gateway/server.py:96-111 | The wire holds of each reported batch exactly what its report stands for |
| OwnerSchedule.ReportedOnce | src/siglent_spd3000/gateway/server.py:103-111 | Reports appear one at a time, in queue order, and are never taken back |
| OwnerSchedule.NothingBehindSentinel | src/siglent_spd3000/gateway/server.py:93-95 | What is queued behind the sentinel is never taken, sent or answered |
| OwnerSchedule.ClosedBetweenBatches | src/siglent_spd3000/gateway/server.py:113-116 | The executor's lock keeps its closing between batches, even after a join timeout, and nothing is sent afterwards |
| OwnerSchedule.AnsweredUnlessDied | src/siglent_spd3000/gateway/server.py:103-111 | A batch reported done has a result or an error unless the worker died in it, as the last one reported |
| OwnerSchedule.DeadWorkerStays | src/siglent_spd3000/gateway/server.py:105-111 | After its death the worker takes, sends and reports nothing more |
| Watching.TakenGrows | src/siglent_spd3000/gateway/server.py:93-96 | The worker never gives an entry back |
| Watching.SeenExecutingOnceTaken | src/siglent_spd3000/gateway/server.py:80-96 | Over every run a batch is seen executing exactly when the worker has taken more entries than were queued ahead of it |
| Watching.SightsMoveForward | src/siglent_spd3000/gateway/server.py:80-96 | Over every run, a batch once seen executing by its waiting thread is never seen queued again |
| OwnerSchedule.WorkerCanMove | src/siglent_spd3000/gateway/server.py:91-111 | While batches ahead are unanswered a live worker can move, and each move shortens what is left |
| OwnerSchedule.OthersDoNotDelay | src/siglent_spd3000/gateway/server.py:78-79 | No submission, close or timeout lengthens it |
| OwnerSchedule.AllAheadAreAnswered | src/siglent_spd3000/gateway/server.py:91-116 | Every batch ahead of a position is answered within a bounded number of worker steps, whatever others do |
| Protocol.HeartbeatRoundTrip | src/siglent_spd3000/gateway/protocol.py:53-82 | A heartbeat is accepted for its own request only, and then read as its state |
| Protocol.FramedMessage | src/siglent_spd3000/gateway/protocol.py:27-50 | A message is framed if and only if it takes at most 1048576 bytes, and then reads back as itself |
| Protocol.CommandRoundTrip | src/siglent_spd3000/gateway/protocol.py:85-105 | A valid command survives the trip exactly when it has at most 4096 bytes |
| Protocol.AcceptedCommand | src/siglent_spd3000/gateway/protocol.py:92-105 | A payload is accepted as a command if and only if it is an object with one of the two kinds and an acceptable text of at most 4096 characters |
| Protocol.SerializableBatch | src/siglent_spd3000/gateway/protocol.py:85-89 | A batch can be serialized exactly when all its commands are short enough |
| Protocol.CommandsRoundTrip | src/siglent_spd3000/gateway/protocol.py:85-105 | A batch of such commands survives the trip |
| Protocol.ExceptionRoundTrip | src/siglent_spd3000/gateway/protocol.py:108-173 | An exception is rebuilt with its class, arguments and batch position if and only if it is portable |
| Protocol.KnownClasses | src/siglent_spd3000/gateway/protocol.py:139-173 | Exactly which classes come back as themselves, by name; any foreign exception comes back as an internal error of the gateway |
| Server.Handler.AwaitWork | src/siglent_spd3000/gateway/server.py:80-83 | A heartbeat with the work's state goes out each time the wait times out, until one is too long or the connection breaks |
| Server.Handler.ServeLine | src/siglent_spd3000/gateway/server.py:166-265 | One turn of the loop has exactly the effect of the line on session, output and owner queue |
| Server.Handler.Handle | src/siglent_spd3000/gateway/server.py:163-265 | The loop over a connection refines the line-by-line specification, also when it ends early |
| Server.BatchOf | src/siglent_spd3000/gateway/server.py:300-305 | An accepted execute request holds 1 to 256 commands that pass their constructors |
| ServerTrace.AnswersEveryLine | src/siglent_spd3000/gateway/server.py:236-256 | Every line gets one final response with result or error, echoing its id when it decodes |
| ServerTrace.ReachesOwner | src/siglent_spd3000/gateway/server.py:188-221 | Only an execute request in an open session reaches the owner, and only then are there heartbeats |
| ServerTrace.SessionStartsWithHandshake | src/siglent_spd3000/gateway/server.py:188-193 | A session starts only with a handshake of the right commit and token, and is never replaced |
| ServerTrace.AcceptedHandshake | src/siglent_spd3000/gateway/server.py:267-290 | A handshake is accepted if and only if the commit is the known one of the gateway, the token is right if there is one, and the settings ask for a number of at least 0 and a positive timeout; the session holds exactly these two; which error otherwise |
| ServerTrace.HandshakeOpensSession | src/siglent_spd3000/gateway/server.py:188-193 | On a connection without a session exactly such a request opens the session, and is answered with the commit |
| ServerTrace.AcceptedBatch | src/siglent_spd3000/gateway/server.py:300-305 | An execute request is accepted as a batch if and only if it lists 1 to 256 payloads, each accepted as the command at its place |
| ServerTrace.OtherRequests | src/siglent_spd3000/gateway/server.py:188-235 | What ping, close and unknown methods are answered with in an open session, and any method but handshake without one |
| ServerTrace.NoRequest | src/siglent_spd3000/gateway/server.py:180-187 | A line that is no request is refused with a protocol error and has no other effect |
| ServerTrace.ErrorIsCarried | src/siglent_spd3000/gateway/server.py:244-256 | An error response carries code -32000, the text of the exception, and data from which the client rebuilds it if and only if it is portable |
| ServerTrace.ConnectionEndsWithClose | src/siglent_spd3000/gateway/server.py:236-265 | With short messages and a client that is there, each line is answered behind its heartbeats, and exactly a close in an open session ends the connection |
| ServerTrace.OutputIsWellShaped | src/siglent_spd3000/gateway/server.py:163-265 | Over every run of the owner the output of a connection that stays up is, per request in order, queued beats, executing beats (execute only), one final response |
| ServerTrace.OwnerIsShielded | src/siglent_spd3000/gateway/server.py:188-191 | Nothing reaches the owner before an accepted handshake, and never an empty, oversized or invalid batch |
| Client.GatewayExecutor.Request | src/siglent_spd3000/gateway/client.py:85-120 | Each request takes the next id, also one that cannot be encoded or written; heartbeats for it are skipped and the first other message decides |
| Client.GatewayExecutor.Execute | src/siglent_spd3000/gateway/client.py:69-80 | The outcome of a batch is read off its request's result, with the shape checked |
| Client.BeatIsSkipped | src/siglent_spd3000/gateway/client.py:99-109 | Exactly the heartbeats for the request are read past |
| Client.AnswerIsRead | src/siglent_spd3000/gateway/client.py:99-120 | A result is returned exactly from a response that carries the request's id, a result and no error |
| Client.TroubleIsReported | src/siglent_spd3000/gateway/client.py:99-111 | A read that times out, ends or breaks is a GatewayConnectionError |
| Client.FirstOtherDecides | src/siglent_spd3000/gateway/client.py:97-120 | The first arrival that is no such heartbeat decides, and what follows it is left unread |
| Client.OutcomeIsRead | src/siglent_spd3000/gateway/client.py:69-80 | The values are read exactly off an object listing a text or null per command; anything else is a protocol error |
| Transparency.RequestIsHandled | src/siglent_spd3000/gateway/server.py:292-317 | The server decodes the client's request to the client's own batch and answers with what comes of it |
| Transparency.BeatsAreSkipped | src/siglent_spd3000/gateway/client.py:99-109 | Any number of heartbeats for the request is read past |
| Transparency.ResponseIsRead | src/siglent_spd3000/gateway/client.py:112-120 | The response to the client's request is read for the values or the exception it carries |
| Transparency.GatewayIsTransparent | src/siglent_spd3000/gateway/client.py:69-120 | Within the frame limits the instrument ends as on a direct connection, and the outcome is the same if and only if an exception raised is portable |
| Transparency.DriverCannotTell | src/siglent_spd3000/driver.py:1395-1515 | Every list of operations ends with the same instrument, Deferreds and exception through the gateway as directly |
| Sessions.CallLooksAlike | src/siglent_spd3000/driver.py:1275-1370 | Every call of any thread has the same effect and raises the same exception over a gateway session as directly |
| Sessions.SessionIsTransparent | src/siglent_spd3000/gateway/client.py:69-120 | Over whole runs whose batches the gateway can carry, driver, Deferreds, lock and instrument end as over a direct connection |
| Transparency.PortableFaults | src/siglent_spd3000/execution.py:249-259 | Exactly which faults of a transport raise portable exceptions |
| Transparency.FullBatchDoesNotFit | src/siglent_spd3000/gateway/protocol.py:20-35 | 256 commands of 4096 bytes keep the command limits, yet their request is refused before it is sent |
| Channel.BeatGivesNoResult | src/siglent_spd3000/gateway/protocol.py:65-82 | A heartbeat of any request is never taken for a result |
| Channel.AnswerGivesOwnResult | src/siglent_spd3000/gateway/client.py:112-120 | A final response is taken for a result only by the request it answers |
| Channel.EveryRunIsValid | src/siglent_spd3000/gateway/client.py:85-120 | Ids increase, with gaps for requests not sent, and are echoed; everything on the way to the client is a beat or an answer, over every run |
| Channel.NoStaleAnswer | src/siglent_spd3000/gateway/client.py:85-120 | A result returned for a request was computed from that very request, however late earlier answers arrive, and once only |
| Liveness.AwaitDone | src/siglent_spd3000/gateway/server.py:80-89 | When the waiting loop sends its heartbeats and the answer |
| Liveness.ServerKeepsPace | src/siglent_spd3000/gateway/server.py:80-83 | However long the batch, the server sends something once per interval and lateness |
| Liveness.BeatIntervalIsSmaller | src/siglent_spd3000/gateway/server.py:80-80 | The interval is the smaller of one second and half the timeout |
| Liveness.HeartbeatsPreventTimeouts | src/siglent_spd3000/gateway/server.py:80-89 | No client times out, for any queue and batch length, if and only if an interval and the slowest round trip stay below the timeout |
| Liveness.HalfTheTimeoutIsEnough | src/siglent_spd3000/gateway/server.py:80-80 | With the server's own interval a round trip below half the timeout is enough |
| Framing.RecvKeepsStream | src/siglent_spd3000/transport/socket.py:54-71 | Receiving at most n bytes neither loses nor reorders any |
| Framing.ReadIsDetermined | src/siglent_spd3000/transport/socket.py:45-71 | A line is returned exactly when its LF lies within the first limit pending bytes; no byte is lost, also after a failure |
| Framing.ChunkingDoesNotMatter | src/siglent_spd3000/transport/socket.py:45-71 | The same bytes cut differently give the same lines and failures |
| Framing.ReadsSplitTheStream | src/siglent_spd3000/transport/socket.py:45-71 | Successive reads return the LF-split of the stream and leave exactly its rest |
| Framing.SocketTransport.Read | src/siglent_spd3000/transport/socket.py:45-71 | Returned lines plus buffer are the bytes received; the buffer stays within the limit; the loop ends by the room left |
| Pairing.LineIsReadWhole | src/siglent_spd3000/transport/socket.py:45-71 | One line on a clean stream is read whole in any pieces and leaves nothing behind |
| Pairing.UnansweredQuery | src/siglent_spd3000/transport/socket.py:45-71 | A query whose line never ends is a protocol error beyond the limit, a timeout when the stream stalls, and a connection error when it closes or breaks |
| Pairing.RepliesMeetTheirQueries | src/siglent_spd3000/execution.py:238-260 | For every batch and every cutting of the stream, values hold each query's own decoded reply and nothing for writes |
| Numbers.AcceptedNumbers | src/siglent_spd3000/driver.py:162-172 | A number is accepted exactly when it is finite, within range, and a whole multiple of the resolution or off one by less than the decimal context can hold |
| Numbers.AcceptedMultiples | src/siglent_spd3000/driver.py:170-172 | With exponents within the context's range it is the whole multiples alone |
| Numbers.TinySetpointIsLost | src/siglent_spd3000/driver.py:171-174 | A number below that range is accepted, though no multiple, and written as zero |
| Numbers.RenderingRoundTrip | src/siglent_spd3000/driver.py:173-174 | The text parses back to exactly the number if and only if it has at most 28 significant digits and none below the context's range |
| Numbers.LongDurationIsRounded | src/siglent_spd3000/driver.py:636-638 | An accepted duration of 29 digits that does not parse back |
| Numbers.RenderingParses | src/siglent_spd3000/driver.py:173-174 | In any case it parses back to the number rounded half to even |
| Numbers.RoundedToNearest | src/siglent_spd3000/driver.py:173-173 | Rounding takes the nearest number of 28 digits within the context's range, of two equally near ones the even one |
| Numbers.EqualNumbersRenderAlike | src/siglent_spd3000/driver.py:173-174 | Equal numbers written with different coefficients and exponents render identically |
| Numbers.RenderedForm | src/siglent_spd3000/driver.py:173-174 | No exponent, no trailing fractional zero, no minus zero |
| Numbers.AcceptedSetpointIsExact | src/siglent_spd3000/driver.py:1254-1269 | An accepted setpoint reads back exactly if and only if it fits the context; within its exponents it has at most five digits and always does |
| Numbers.AcceptedSetpoints | src/siglent_spd3000/driver.py:1254-1269 | A setpoint with exponents within the context's range is accepted if and only if it lies from 0 to 32 (voltage) or 3.2 (current) and is a whole multiple of 0.001 or 0.01 |
| Numbers.SetpointRange | src/siglent_spd3000/driver.py:168-169 | The range holds for every accepted setpoint, whatever its exponent |
| Numbers.RefusedSetpoint | src/siglent_spd3000/driver.py:162-172 | Infinities, NaNs and what is no number are never accepted, and every refusal is a validation error |
| Endpoints.NameableHosts | src/siglent_spd3000/driver.py:904-934 | Exactly which hosts the endpoint parser can return |
| Endpoints.ParsedHostIsNameable | src/siglent_spd3000/driver.py:922-934 | Every endpoint returned has such a host and a port from 1 to 65535 |
| Endpoints.DefaultPort | src/siglent_spd3000/driver.py:904-929 | A host alone, bare or in brackets, gets port 8765, and is refused exactly when it is empty or holds a space |
| Endpoints.GivenPort | src/siglent_spd3000/driver.py:904-934 | What follows the colon is the port exactly if it is digits for a number from 1 to 65535 |
| Endpoints.ColonsTakeBrackets | src/siglent_spd3000/driver.py:917-921 | More than one colon without brackets is refused |
| Endpoints.EndpointRoundTrip | src/siglent_spd3000/driver.py:1032-1032 | Printing and parsing gives an endpoint back exactly unless its host begins with a bracket and has no colon |
| Endpoints.UnclosedHostExists | src/siglent_spd3000/driver.py:1032-1032 | The smallest endpoint that does not survive |

## Left out

- JSON text encoding: messages are JSON values with an arbitrary size function; NaN and infinities in handshake
  settings, lone surrogates and partial lines are not modelled.
- Exception messages of verification errors: represented by the reason for them; texts that quote a value with
  `repr`, or that carry a library's own text, are fixed or shortened. Causes, notes and remote tracebacks are not kept.
- Exceptions that are no `Exception` (interrupts) inside response parsers and executors; in the owner their effect is
  the step that ends the worker.
- Executors that return a result not aligned with their batch, which the driver answers with an `IndexError` or by
  ignoring the surplus.
- The types of the batch position attributes: the index is an integer and the others are strings, as the executor sets
  them. Integers and floats among exception arguments are one kind of number.
- Decimal numbers whose quotient by the resolution needs more than 28 digits: the callers' ranges exclude them.
- The request id: heartbeats for ids so large that a heartbeat exceeds a message are answered with an error by the server model and excluded from
  `Transparency` by `SmallBeats`.
- Token comparison and commit discovery: equality with the configured values, an empty token being none.
- The real sockets, PyVISA, VXI-11, threads, signals, logging, warnings, the command line, configuration files.
- The semantic property wrappers, the SCPI table, the status, identification and network parsers, `__str__` methods and
  `_unwrap_batch_return`: single-branch or structural code; operations carry an arbitrary parser and expected value.
- Times: whole ticks instead of floats, with one clock shared by owner and executor.
- Driver.SPD3000.Acquire: does not block; calls of threads that would wait are not enabled until the lock is free.
- Sessions.SessionIsTransparent: one client at a time; what other clients do to the instrument between batches is not compared.
- PhysicalOwner.Owner.Run: assumes the executor is not closed while the worker runs; closing at any moment is in `OwnerSchedule`.
- Pairing.RepliesMeetTheirQueries: the instrument's bytes have arrived by the time of the read; a reply that arrives after a timeout is a fault of that batch in `Framing`.
- Framing.SocketTransport.Read: goes on after a timeout, where Python's own file objects over sockets would not; this transport reads the socket itself.
- Client.GatewayExecutor.Request: goes on reading after a timeout of an earlier request, where a `SocketIO` object refuses to; the model allows more.
- Endpoints.EndpointRoundTrip: ports of more than 4300 digits, on which `int` raises by itself, are not modelled.
