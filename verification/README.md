# nipxi safety protocols in Dafny

A model of the safety-critical core of nipxi, a PXI-based battery test station, and proofs of what
that core keeps. The station switches one battery at a time onto an SMU through an interlocked relay
bank that it reaches over Telnet, plans and supervises several workers, numbers and stores runs, and
stops everything when something goes wrong. Communication may fail at any point, so almost every
property here is stated for every pattern of failures.

`dafny verify dfyconfig.toml` checks the whole project.

| file | what it models |
|---|---|
| `RelayWire.dfy`, `RelayMatrix.dfy` | the relay bank driver: wire history, interlock, retry, emergency shutdown, settling |
| `BankCodec.dfy` | hexadecimal bank text, masks, relay addresses, readback parsing |
| `Telnet.dfy` | the Telnet decoder against a token grammar (RFC 854, RFC 855) |
| `ExecutionPlanning.dfy`, `Scheduling.dfy`, `Arbitration.dfy`, `ResourceGraph.dfy` | from battery group configuration to conflict graph, plan, runs of the plan and resource claims |
| `FaultStop.dfy` | fault bus, concurrent supervisor and global emergency stop as one interleaving system |
| `RunSequence.dfy`, `Storage.dfy` | run numbering across instances, telemetry pinning, forensic export |
| `SmuTrace.dfy`, `Smu.dfy` | SMU output safety over the history of its session |
| `PositionRun.dfy` | one position of a run: summary, traceability log, presence pre-check, sequence and fault classification, on top of storage and the relay driver |
| `GroupRun.dfy` | the Group -> ALL loop over the positions |
| `SenseRouting.dfy` | the lazy sense-router cache, on top of the relay driver |
| `Thermistor.dfy` | NTC conversion and presence classification |
| `Collections.dfy`, `Results.dfy` | shared definitions |

How it is modelled:

- What the station cannot control is a nondeterministic choice inside the methods: whether a command
  is executed, acknowledged, refused or cut off, whether a database statement fails, whether a session
  access raises. A contract holds for all choices. Ghost histories (`wire`, `calls`, `written`, `journal`, `increments`,
  `files`) record what happened and what came back, and the contracts say which result each history calls
  for.
- The relay driver is proved twice at once. With `faithfulWrites` a command that is executed does what
  it says, and the interlock holds over whole histories. Without it a write may leave any bank behind,
  and the refinement of the simple switch still holds because every readback is truthful. A readback is
  text: an echo, the bank's digits or the on/off word, and blanks, or anything that does not parse; the wire
  keeps that text with the command, and the driver parses it with the codec.
- Threads and database statements that interleave are step systems (`FaultStop`, `RunSequence`,
  `Scheduling`); a run is any sequence of enabled steps. The classes of `FaultStop` and `Storage` give
  the sequential code of those steps.
- The answers of the DMM and the NTC DAQ and those that a retrieval gets from the databases are inputs, so
  results are stated as functions of them. Clocks, months, archived files, log texts and operator actions
  are inputs or choices.
- Temperatures and setpoints are reals; the logarithm is a parameter known by three laws.

Where the code does less than its prose, the model follows the code and the difference is stated:

- An unparseable answer raises outside the retry wrapper, so no emergency shutdown is tried; a raw
  `OSError` from `recv` is neither retried nor followed by a shutdown (`FailsSafe` is an equivalence).
- `open_all` does not settle.
- An IAC negotiation cut before its option byte leaks the verb into the text (`CutStream`).
- A refused access up to and including the `commit()` of `source_dc_voltage_point`, the enable among
  them, ends the call there without a disable (`Refused` in `SourceDcVoltagePoint`).
- A fault set between the supervisor's timed-out wait and its liveness test is returned as unfaulted
  (`FaultMissedInWindow`), exactly if every liveness test still to be made finds its worker ended
  (`WindowExactly`); outside that window none is missed (`FaultOutsideWindowIsCaught`).
- A relay command that times out again after a successful reconnect raises the timeout class that the
  fault policy takes for the battery's, so the group run goes on (`RelayFailureStopsGroup`).
- `_run_one_charge_or_discharge_position` and its presence pre-check are documented never to raise.
  They raise exactly when the relay fails in the pre-check, which operates it outside any handler, or a
  storage statement outside the handlers is refused (`RaisesExactly`); with every statement accepted, a
  relay address outside the matrix always ends that way (`RunOnePosition`, `BadAddressRaised`). The
  group loop has no handler either (`GroupRaisesExactly`).
- The pre-check is documented to reopen the relay always; it does so only once `close` has returned, so
  a refused settling time leaves the relay energised (`RelayLeft`).
- The export looks for the telemetry file in `DATA_DIR` by base name, so a run opened with an explicit
  `DATABASE_FILE` elsewhere is not found or, worse, another file is read (`ExportFindsResolvedFile`).
- Rows can be missing from an export without the reason that `unavailable` would give: a failed query is
  swallowed and returns nothing (data/storage.py:969-971), a same-named file in `DATA_DIR` holds no row of
  the run, and a file made anew after an archival holds only some (`RetrieveRun`).
- The resource graph compares resource names without their role and never looks at SMU names, so a
  claim on an SMU that goes by the name of another worker's DMM can be refused (`CrossNamedRefused`); it
  never is if and only if the plan happens to order every two such steps (`SmuClaimsAgree`).

## Model

| member | source | states |
|---|---|---|
| RelayWire.InterlockOverRun | hardware/relay_eth.py:429-468 | in every history of faithful writes, each `relay on n` finds every other relay off, and no bank ever has more than max(initial count, 1) relays energised |
| RelayWire.DeadTimeOverRun | hardware/relay.py:62-93 | in every history, a settled return separates every earlier command from every later one by at least the settling time |
| RelayMatrix.NumatoRelayMatrix.Execute | hardware/relay_eth.py:836-856 | one command goes out, is recorded with the bank before and after it and with what came back, and may be executed or not; text that parses is the truth; `relay on` needs every other relay off |
| RelayMatrix.NumatoRelayMatrix.SendAndCapture | hardware/relay_eth.py:836-856 | no command without a socket; with one, exactly one: its text is the answer exactly if it does not say "invalid", and a closed connection, a timeout and a raw socket error are each raised as their own failure |
| RelayMatrix.NumatoRelayMatrix.MaskText | hardware/relay_eth.py:688-701 | whatever echo and blanks surround the digits, the answer to `readall` parses to the bank's mask |
| RelayMatrix.NumatoRelayMatrix.StateText | hardware/relay_eth.py:703-712 | the answer to `read` parses to the relay's state, behind every echo that does not hold the word "on" |
| RelayMatrix.NumatoRelayMatrix.Connect | hardware/relay_eth.py:263-329 | a normal return exactly if the login succeeded and the one `readall` after it was accepted and parsed; an OSError of the login is raised as it is and keeps the socket; never changes the bank, never retries, never starts an emergency attempt |
| RelayMatrix.NumatoRelayMatrix.CheckLoop | hardware/relay_eth.py:313-329 | the command that checks a new connection: passed exactly if its answer was accepted and holds a mask |
| RelayMatrix.NumatoRelayMatrix.Disconnect | hardware/relay_eth.py:377-385 | closes the socket whatever state it was in |
| RelayMatrix.NumatoRelayMatrix.EmergencyAllOff | hardware/relay_eth.py:792-834 | never raises; without a socket nothing goes out, with one the all-off does and, exactly if that was accepted, one readback; true exactly if the readback was accepted and is 0, and then the bank is empty; no reconnect, no nested attempt |
| RelayMatrix.NumatoRelayMatrix.ForceOffOnce | hardware/relay_eth.py:809-834 | all-off and one readback on the transport; true exactly if both were accepted and the mask read is 0, even if writes misbehave |
| RelayMatrix.NumatoRelayMatrix.ReconnectAndRetry | hardware/relay_eth.py:768-790 | exactly one reconnect, next on the wire; if it works the command goes out again and comes back as the retry was answered; either failure ends in one emergency attempt |
| RelayMatrix.NumatoRelayMatrix.RetryOnce | hardware/relay_eth.py:784-790 | over a checked new connection, the command comes back as the retry was answered, a rejection and a timeout after one emergency attempt |
| RelayMatrix.NumatoRelayMatrix.FirstTry | hardware/relay_eth.py:768-770 | the command is issued, and goes out exactly if there is a socket |
| RelayMatrix.NumatoRelayMatrix.CallWithReconnect | hardware/relay_eth.py:745-790 | an accepted first answer and a raw socket error come back without a reconnect, every other first reply costs exactly one; a normal return, a socket error and a communication failure each come back exactly if the history ends that way (`CameBack`), the failure only where no connection was made or the retry on a checked one failed, a timeout only if the retry timed out |
| RelayMatrix.NumatoRelayMatrix.ReadMask | hardware/relay_eth.py:508-513 | a normal return exactly if the last answer holds a mask, which is the true one and is recorded as the last known; `Unparseable` exactly if an accepted answer holds none |
| RelayMatrix.NumatoRelayMatrix.ReadRelay | hardware/relay_eth.py:523-528 | the same for one relay's on/off word |
| RelayMatrix.NumatoRelayMatrix.VerifyAll | hardware/relay_eth.py:557-585 | returns exactly if the last answer was accepted and holds the expected mask; `Unparseable` exactly if it was accepted and holds none, a socket error exactly if it was one; an answer with another mask is a mismatch, raised after exactly one emergency attempt whose outcome it carries |
| RelayMatrix.NumatoRelayMatrix.VerifySingle | hardware/relay_eth.py:530-555 | the same for one relay |
| RelayMatrix.NumatoRelayMatrix.CheckCurrentRelayState | hardware/relay_eth.py:611-659 | never raises; the last known mask is what was answered, or unknown exactly if the answer holds no mask or there was none |
| RelayMatrix.NumatoRelayMatrix.ForceAllOffAndVerify | hardware/relay_eth.py:661-674 | read, force off, verify in this order; a normal return means an empty bank even if writes misbehave; every failure is fail-safe and the one the history calls for, a mismatch only over a readback other than 0 |
| RelayMatrix.NumatoRelayMatrix.Settle | hardware/relay.py:72-93 | the settling time passes, or a non-positive setting is refused |
| RelayMatrix.NumatoRelayMatrix.ActivateAndVerify | hardware/relay_eth.py:458-466 | activate, verify the relay, verify the bank, in this order; a normal return means exactly this relay even if writes misbehave; a mismatch only over a readback of the relay as off or of another mask |
| RelayMatrix.NumatoRelayMatrix.CloseImpl | hardware/relay_eth.py:429-468 | the six steps in order, a normal return means exactly the requested relay; failures follow a prefix of the steps, and a mismatch names the readback that contradicts (`CloseContradicted`) |
| RelayMatrix.NumatoRelayMatrix.OpenImpl | hardware/relay_eth.py:409-427 | a normal return means an empty bank; an invalid channel touches nothing |
| RelayMatrix.NumatoRelayMatrix.Close | hardware/relay.py:67-70 | bank exactly {channel}, settled; at most 22 commands, 6 reconnects and 2 emergency attempts; fail-safe exits, each with the failure its last reply calls for (`Explained`) |
| RelayMatrix.NumatoRelayMatrix.Open | hardware/relay.py:62-65 | bank empty, settled; at most 13 commands and 3 reconnects; fail-safe exits, each with the failure its last reply calls for |
| RelayMatrix.NumatoRelayMatrix.OpenAll | hardware/relay_eth.py:479-481 | bank empty, and the last thing on the wire is the readback, not a settled return |
| RelayMatrix.NumatoRelayMatrix.Query | hardware/relay_eth.py:470-473 | the state that was answered for a valid channel, which is the true one; each failure is the one its last reply calls for |
| RelayMatrix.NumatoRelayMatrix.Session | hardware/relay_eth.py:403-493 | for every sequence of public calls, however each ends: interlock, count bound and dead time over the whole history |
| BankCodec.ReadallRoundTrip | hardware/relay_eth.py:688-701 | for up to 32 relays and every mask, the text `writeall` sends is read back as that mask behind any prompt-free echo |
| BankCodec.ReadReplyExact | hardware/relay_eth.py:703-712 | one relay's answer is read right if and only if it is on or the echo does not hold the word "on" |
| BankCodec.ReadRoundTrip | hardware/relay_eth.py:523-528 | with the echo of `relay read n`, every relay's state is read right |
| BankCodec.FormatHexValue | hardware/relay_eth.py:501-506 | the padded hexadecimal text is worth the mask, at any width |
| BankCodec.SentDigits | hardware/relay_eth.py:718-720 | an in-range mask takes between two and eight digits |
| BankCodec.ChannelsDetermineMask | hardware/relay_eth.py:714-716 | two in-range masks with the same channel list are equal |
| BankCodec.ChannelListed | hardware/relay_eth.py:714-716 | a channel is listed exactly when its bit is set |
| BankCodec.ChannelsAscend | hardware/relay_eth.py:714-716 | the channels are listed in ascending order |
| BankCodec.AddressNamesOneRelay | hardware/relay_eth.py:734-741 | addresses 0-9 and A-V name the relays 0..31 one to one |
| BankCodec.MaskDeterminesBank | hardware/relay_eth.py:508-513 | equal masks are equal banks |
| BankCodec.SingleRelayMask | hardware/relay_eth.py:465-466 | reading back `1 << n` means relay n alone is energised |
| BankCodec.EmptyBankMask | hardware/relay_eth.py:674-674 | reading back 0 means the bank is empty |
| Telnet.HandleIac | hardware/relay_eth.py:933-1006 | the decoder loop computes exactly the text and the replies of the chunk's unique parse |
| Telnet.ReadOne | hardware/relay_eth.py:957-998 | one turn of the loop consumes exactly the token at its position, or the cut sequence there; in bytes, WILL is answered DONT, DO is answered WONT, and nothing else is answered |
| Telnet.NegotiationInBytes | hardware/relay_eth.py:972-990 | in bytes and before any rest of the stream: 255 251 o leaves no text and is answered 255 254 o, 255 253 o is answered 255 252 o, the verbs 252 and 254 are not answered, 255 255 is one data byte 255, and any other byte is itself |
| Telnet.CommandsInBytes | hardware/relay_eth.py:955-998 | in bytes and before any rest: two-byte commands and whole subnegotiations leave no text and no reply |
| Telnet.CutsInBytes | hardware/relay_eth.py:962-978 | in bytes: a chunk that ends in a lone 255, inside a verb or inside a subnegotiation, and what each leaves in the text |
| Telnet.TokenizeSound | hardware/relay_eth.py:955-998 | every chunk is the encoding of well-formed tokens and a cut tail |
| Telnet.TokenizeEncode | hardware/relay_eth.py:955-998 | every well-formed token list and tail is the parse of its encoding: the grammar is unambiguous |
| Telnet.DecoderInvertsEncoder | hardware/relay_eth.py:933-1006 | for every stream of complete tokens the text is exactly the data and the replies are exactly one decline per WILL or DO, in order |
| Telnet.SplitAtTokenBoundary | hardware/relay_eth.py:914-921 | splitting a stream at any token boundary changes neither text nor replies |
| Telnet.RepliesAreFinal | hardware/relay_eth.py:980-989 | feeding the replies back yields no text and no further reply |
| Telnet.CutStream | hardware/relay_eth.py:962-978 | a cut chunk keeps its text exactly unless the cut falls between verb and option, and then leaks the verb |
| ExecutionPlanning.GreedyIsFirstFit | orchestration/execution_plan.py:109-116 | batches partition the workers, hold no conflict, and each worker conflicts with someone in every earlier batch |
| ExecutionPlanning.BatchBound | orchestration/execution_plan.py:109-116 | at most largest degree + 1 batches |
| ExecutionPlanning.BatchByBatch | orchestration/execution_plan.py:118-132 | the schedule lists each batch in one piece, after all earlier batches and before all later ones |
| ExecutionPlanning.BatchesKeepOrder | orchestration/execution_plan.py:109-116 | every batch lists its workers in discovery order |
| ExecutionPlanning.ConflictRecordedOnce | orchestration/execution_plan.py:121-132 | each conflicting pair is recorded exactly once, later on earlier |
| ExecutionPlanning.DependenciesExactly | orchestration/execution_plan.py:99-132 | a step waits for another exactly if that one is scheduled earlier and the conflict was given for the two, in either order; it waits for nobody else |
| ExecutionPlanning.ConflictingKeepsOrder | orchestration/execution_plan.py:121-127 | what a step waits for is listed in schedule order |
| ExecutionPlanning.IncludedMembers | orchestration/execution_plan.py:91-97 | a worker is included exactly if there is no selection or its name is in it, its name is excluded exactly otherwise, names stay distinct and nobody is lost |
| ExecutionPlanning.FilterKeepsOrder | orchestration/execution_plan.py:91-97 | the included and the excluded both keep discovery order |
| ExecutionPlanning.PlaceWorker | orchestration/execution_plan.py:110-116 | the worker joins the first batch it has no conflict in, or opens a new one |
| ExecutionPlanning.BuildSteps | orchestration/execution_plan.py:118-132 | steps list the batches in order, each waiting for exactly its conflicting predecessors |
| ExecutionPlanning.AddBatch | orchestration/execution_plan.py:121-131 | no step waits for another of its own batch, each for all conflicting ones of earlier batches |
| ExecutionPlanning.BuildExecutionPlan | orchestration/execution_plan.py:69-134 | first-fit batches, steps that flatten them, dependencies on exactly the earlier conflicting workers, each worker's own groups |
| Scheduling.ScheduleSafety | orchestration/execution_plan.py:121-132 | in every run, no two conflicting workers run at once |
| Scheduling.ScheduleProgress | orchestration/execution_plan.py:48-56 | in every unfinished reachable state a step is running or may start |
| Scheduling.RunLength | orchestration/execution_plan.py:48-56 | starts and finishes so far plus those still due are always twice the number of steps |
| Scheduling.ArbitrationAgrees | orchestration/arbiter.py:97-110 | no claim is refused in any run if and only if every two steps sharing a resource are ordered by the dependencies |
| Scheduling.CoveredSharingNeverRefused | orchestration/arbiter.py:97-105 | if sharing implies conflict, no claim is ever refused |
| Scheduling.RefusedRun | orchestration/arbiter.py:97-105 | two unordered sharing steps have a run in which the second claim is refused |
| Arbitration.ReleaseUndoesClaim | orchestration/arbiter.py:97-110 | releasing undoes the claim that took a free resource |
| Arbitration.InProcessArbiter.Claim | orchestration/arbiter.py:97-105 | refused exactly when another owner holds the resource, with that owner; otherwise the owner holds it and nothing else moves |
| Arbitration.InProcessArbiter.Release | orchestration/arbiter.py:107-110 | frees the resource exactly if the handle's owner holds it, and moves nothing else |
| ResourceGraph.DiscoverTopology | orchestration/topology.py:51-87 | every resource and role lists exactly the enabled groups that use it |
| ResourceGraph.EnterRoles | orchestration/topology.py:77-86 | a group enters itself under exactly its assigned roles, the NTC DAQ falling back to the DAQ |
| ResourceGraph.GroupInTopology | orchestration/topology.py:51-87 | in configuration terms: which of a group's fields puts it under which role, the NTC DAQ or else the DAQ |
| ResourceGraph.DiscoverWorkers | orchestration/workers.py:43-67 | one worker per SMU of an enabled group, in order of first appearance, with exactly its groups in order |
| ResourceGraph.WorkersInConfiguration | orchestration/workers.py:43-67 | in configuration terms: an SMU has a worker exactly if an enabled group names it, and a group is listed under exactly the SMU it names |
| ResourceGraph.SharedDependencies | orchestration/resource_graph.py:62-70 | exactly the resources that some group of the worker uses in a role other than the SMU |
| ResourceGraph.FindConflicts | orchestration/resource_graph.py:72-76 | each pair conflicts exactly when both share something, with exactly the overlap |
| ResourceGraph.BuildResourceGraph | orchestration/resource_graph.py:46-78 | workers, shared resources and conflicts agree with the configuration |
| ResourceGraph.PlannedSharingConflicts | orchestration/resource_graph.py:72-76 | any two planned workers claiming a common resource conflict; where the claims include the SMU, provided no SMU goes by the name of something another worker shares (`SmuNamesApart`) |
| ResourceGraph.PlanStation | orchestration/execution_plan.py:89-134 | the plan of a configuration holds exactly the selected workers, ordered over the graph's conflicts |
| ResourceGraph.PlannedNeverRefused | orchestration/resource_graph.py:46-78 | for every configuration, no run of its plan ever has a claim on a shared resource refused; claims that include the SMU need `SmuNamesApart` |
| ResourceGraph.SmuClaimsAgree | orchestration/resource_graph.py:62-76 | claims that include the SMU: for every configuration, none is refused in any run if and only if the plan orders every two steps one of whose SMUs goes by the name of something the other's groups use |
| ResourceGraph.CrossNamedRefused | orchestration/resource_graph.py:62-76 | two groups, the second using the first's SMU name as its DMM: the graph has no conflict and the plan has a run in which one worker is refused what the other holds |
| ResourceGraph.RunningGroupsShareNothing | orchestration/resource_graph.py:46-78 | for every configuration, groups of workers running together have different SMUs and no matrix, DMM, DAQ or NTC DAQ in common |
| FaultStop.OriginIsFirstAndStable | orchestration/fault_bus.py:59-79 | in every interleaving the origin is the first report and never changes, and whoever sees the bus tripped sees an origin |
| FaultStop.EveryReportIsKept | orchestration/fault_bus.py:59-79 | the bus holds exactly the reports made, whoever makes them and whenever, in the order of the lock |
| FaultStop.TrippedBySomebody | orchestration/fault_bus.py:59-70 | the event is set exactly if some reporter has set it |
| FaultStop.FaultedResult | orchestration/concurrent_supervisor.py:144-151 | a faulted result: one trigger, every worker asked before the first join, joined and judged in order, "stopped" only if its thread had ended, with the origin's reason |
| FaultStop.MarkedAsSeen | orchestration/global_emergency_stop.py:79-92 | for every worker marked there was one look at it, right after its join, and it is marked stopped if and only if its thread had ended by then, and otherwise was alive |
| FaultStop.UnfaultedResult | orchestration/concurrent_supervisor.py:138-142 | an unfaulted result: every worker ended, nobody was asked to stop, no fault was set at the last wait |
| FaultStop.UnfaultedAfterOneRound | orchestration/concurrent_supervisor.py:138-142 | an unfaulted result comes from one wait that timed out before anybody had set the event, followed by exactly the n liveness tests and the return |
| FaultStop.StartsEverybody | orchestration/concurrent_supervisor.py:128-137 | undisturbed, the supervisor starts every worker once, in order, and then waits |
| FaultStop.RoundOfTests | orchestration/concurrent_supervisor.py:138-142 | an undisturbed round of liveness tests goes back to waiting at the first live worker, and returns an unfaulted result exactly if there is none |
| FaultStop.SupervisorNeverStuck | orchestration/concurrent_supervisor.py:128-151 | until it returns, the supervisor always has a step |
| FaultStop.StopIsBounded | orchestration/global_emergency_stop.py:65-92 | over every run from the moment the fault is seen: whatever interleaves, the supervisor takes at most 3n + 4 steps of its own, each counts one, and it has returned exactly after 3n + 4, with a faulted result |
| FaultStop.StopGoesOn | orchestration/global_emergency_stop.py:65-92 | until then its next step is always enabled |
| FaultStop.FaultOutsideWindowIsCaught | orchestration/concurrent_supervisor.py:138-142 | a fault set anywhere but between a timed-out wait and the liveness tests leads to a faulted result |
| FaultStop.WindowExactly | orchestration/concurrent_supervisor.py:138-142 | inside the window, exactly: however the run goes on, the fault is returned as unfaulted if and only if every liveness test still made finds its worker ended |
| FaultStop.FaultMissedInWindow | orchestration/concurrent_supervisor.py:139-142 | a run in which a fault set in that window is returned as unfaulted |
| FaultStop.GlobalFaultBus.Report | orchestration/fault_bus.py:59-65 | appends the report, keeps the first as origin, sets the event |
| FaultStop.Trigger | orchestration/global_emergency_stop.py:65-92 | both loops: all requests before all joins, "stopped" exactly for workers no longer alive |
| FaultStop.TriggerActsInOrder | orchestration/global_emergency_stop.py:65-92 | act by act: the trip, a request to every worker in order, then each worker's join with its mark right after it |
| FaultStop.SupervisorPerformsTrigger | orchestration/concurrent_supervisor.py:144-151 | what the supervisor does in the interleaving system is what the trigger's loops do |
| RunSequence.RunNumbersUnique | data/storage.py:497-523 | in every interleaving of instances, failures, rollbacks and retries the numbers increase in commit order and lie below the committed counter |
| RunSequence.HoldersDiffer | data/storage.py:497-523 | two instances never hold the same number |
| RunSequence.NeverFallsThrough | data/storage.py:507-523 | the retry loop ends in a number or an exception |
| RunSequence.RetriesExactly | data/storage.py:507-523 | over every interleaving: a call raises exactly after its fifth lock error or its first error of another kind, and until then goes on trying |
| RunSequence.NumbersAreConsecutive | data/storage.py:507-523 | the counter is the first number plus one for each number handed out, except for late commits; without those the numbers are consecutive |
| RunSequence.RunIdsDistinct | data/storage.py:525-534 | distinct numbers give distinct run ids, also beyond eight digits |
| RunSequence.RunIdsUnique | data/storage.py:525-561 | in every interleaving the run ids handed out are pairwise distinct |
| Storage.ExportFindsResolvedFile | data/rotation.py:37-54 | the export looks in the file that was resolved if and only if no override places it outside the data directory |
| Storage.MonthlyFiles | data/rotation.py:37-54 | without an override every month has a file of its own in the data directory; with one, the month plays no part |
| Storage.RunSitsInItsFile | data/storage.py:608-677 | a summarised run's rows sit in the file its summary names, complete and in order unless archived, and in no other file |
| Storage.DataStorage.AllocateSequenceNumber | data/storage.py:497-523 | over the history of increments: at most five, every one but the last ended by a lock, giving up on locks only after all five and on any other error at once; a number, or an error without a number |
| Storage.DataStorage.NewRunId | data/storage.py:525-534 | a run id that no run had, made of the counter's number and pinned to the open telemetry file; over the history of increments it fails exactly as the last one did |
| Storage.DataStorage.BeginNewRunId | data/storage.py:536-561 | a fresh run on the same pinned file; on failure the old run stays; refused as not open exactly if it is not |
| Storage.DataStorage.OpenFiles | data/storage.py:608-671 | the telemetry path is resolved once and its name is that of the file opened; it succeeds exactly if the directories and both files could be reached, and otherwise raises what they did |
| Storage.DataStorage.FirstRun | data/storage.py:672-676 | over open files, a fresh run pinned to them, or the error of the last increment |
| Storage.DataStorage.OpenOnce | data/storage.py:608-677 | on success a fresh run pinned to the file of the current month; it succeeds exactly if the files were reached and the last increment committed, and otherwise raises the error of whichever failed |
| Storage.DataStorage.TryOpen | data/storage.py:579-604 | one turn of the loop: the same, and nothing stays open after a failure |
| Storage.DataStorage.Open | data/storage.py:579-593 | over the history of openings: at most five, every one but the last ended by a lock, across month changes; it ends as the last reach for the files or the last increment did; pinned on success, nothing open on failure |
| Storage.DataStorage.Write | data/storage.py:859-922 | a row goes to the pinned file under the current run, or nowhere; a normal return persisted it, and every error but a missing connection is the database's answer in the journal |
| Storage.DataStorage.StartRunSummary | data/storage.py:1068-1109 | one summary per run, naming the pinned file and the run's number; a second one is refused exactly if the run has one; after a database error the insert may still land |
| Storage.OpenForForensicExport | data/storage.py:1308-1389 | a run is found exactly if the index is there, can be read and has its summary; its file is opened exactly if the summary names one that lies in the data directory and opens; otherwise there is a reason |
| Storage.GetMeasurements | data/storage.py:924-971 | exactly the run's rows in order; nothing without a file, and nothing on a failed query, of which the caller is not told |
| Storage.RetrieveRun | data/storage.py:1308-1389 | index readable, file opened, query done, and the run's file in the data directory and never archived: the run is found with exactly the rows persisted for it, in order; whatever happened, only such rows come back; none if the directory differs or the query failed; without a readable file, none and a reason |
| Storage.Workload | data/storage.py:579-677 | any interleaving of instances, month changes, archived files and late commits keeps every run pinned where it started |
| SmuTrace.GuardedWrite | hardware/smu.py:551-579 | in a guarded history every non-zero setpoint write follows an off readback in the same session with no output command in between |
| Smu.SMU.Connect | hardware/smu.py:155-181 | a refused session leaves the old one; after opening one nothing is known of the output |
| Smu.SMU.Disconnect | hardware/smu.py:183-191 | the session is given up even if closing it raises, and what was known of the output with it |
| Smu.SMU.OutputDisable | hardware/smu.py:392-420 | abort is best effort, the disable is not; no session, no access |
| Smu.SMU.VerifyOutputDisabled | hardware/smu.py:422-439 | an answered readback gives exactly whether the output is off; an unanswered one counts as not off, no session as off |
| Smu.SMU.CheckOutputDisabled | hardware/smu.py:441-467 | tells a still-enabled output from a failed query |
| Smu.SMU.QueryOutputState | hardware/smu.py:489-516 | the true state or unknown, recorded |
| Smu.SMU.DisableAndCheck | hardware/smu.py:566-579 | the abort, the disable and, exactly if that was accepted, the readback; off exactly if it was read back off |
| Smu.SMU.ForceOutputOffAndVerify | hardware/smu.py:551-579 | queries, disables and verifies; true exactly if the accesses end in an accepted disable read back off; the recorded state is unknown after a refused disable and otherwise exactly that verdict |
| Smu.SMU.ConfigureCurrentSource | hardware/smu.py:237-308 | no setpoint before a confirmed-off baseline; `NoBaseline` exactly if the baseline accesses do not end in an accepted disable read back off, a refusal ends at the refused access, a mismatch exactly if a recorded readback lies beyond tolerance; a normal return leaves the output off with both within tolerance |
| Smu.SMU.WriteCurrentSource | hardware/smu.py:277-284 | range, level, range, limit and commit in order, output still confirmed off; a refusal leaves exactly the accepted accesses before it and the refused one |
| Smu.SMU.VerifyCurrentSource | hardware/smu.py:286-308 | a refused readback is raised as the driver raised it, a mismatch exactly if a value read lies beyond its tolerance |
| Smu.SMU.SetChargeMode | hardware/smu.py:310-320 | the same for the charge current as given |
| Smu.SMU.SetDischargeMode | hardware/smu.py:322-349 | whatever the sign given, the readback is a sink: within 1e-4 of -abs(I) |
| Smu.SMU.OutputEnable | hardware/smu.py:351-390 | commanded, committed and initiated, ending at the first refusal; a normal return exactly if it was then read back on |
| Smu.SMU.ConfigureVoltagePoint | hardware/smu.py:1068-1080 | limit, level, enable and commit in order; a refusal leaves exactly the accepted accesses before it and the refused one, so no disable |
| Smu.SMU.VerifyPoint | hardware/smu.py:1098-1110 | both recorded readbacks within tolerance and the output read on, a mismatch exactly if they were answered and one is off, and a refused access otherwise |
| Smu.SMU.Hold | hardware/smu.py:1112-1151 | a normal end exactly if initiate and measurement were accepted and the hold ran out, with the compliance that was observed; cancelled exactly if the operator did |
| Smu.SMU.MeasureAndHold | hardware/smu.py:1088-1151 | the outcome its recorded readbacks, measurement and hold call for; the output is recorded as on exactly if the point was verified |
| Smu.SMU.HoldPoint | hardware/smu.py:1088-1186 | measured and held, then disabled and read back whatever came of that; a refused disable is what is raised, then the failure of the point, then compliance |
| Smu.SMU.SourceDcVoltagePoint | hardware/smu.py:1056-1186 | every exit after a successful commit has disabled the output or raises from the disable; a refusal before that ends the call at the refused access, after the verified-off baseline; which failure is raised is decided by the recorded accesses; a normal return was on target, held out and not in compliance |
| Smu.SMU.ApplyZeroSetpoint | hardware/smu.py:835-887 | never raises or touches the output; the setpoints of the active function, and of that one, are read, zeroed and committed up to the first refusal |
| Smu.SMU.ZeroCurrentSource | hardware/smu.py:835-887 | a current source: both setpoints read, zeroed and committed, in this order |
| Smu.SMU.ZeroVoltageSource | hardware/smu.py:835-887 | a voltage source: its level read, zeroed and committed |
| Smu.SMU.Attempt | hardware/smu.py:709-734 | one disable and, if accepted, one readback; disabled means off |
| Smu.SMU.DisableWithRetries | hardware/smu.py:708-772 | the retry loop: bounded, stops at the first verified-off attempt, pauses only between attempts |
| Smu.SMU.EmergencyOutputOff | hardware/smu.py:689-772 | never raises, zeroes before the first disable, at most the configured attempts, true exactly when an accepted disable was read back off, stops there, and labels the last attempt |
| Smu.SMU.Session | hardware/smu.py:155-772 | over any sequence of public calls, connecting and disconnecting included, no non-zero setpoint is written except over an output confirmed off in the same session |
| PositionRun.OnlyBatteryExceptionsContinue | test.py:4632-4656 | an exception lets the loop go on exactly when it is battery-class and not station-class |
| PositionRun.OrderMatters | utils/errors.py:205-241 | asking for battery class first would change exactly one answer, the lost DMM |
| PositionRun.RelayFailureStopsGroup | test.py:4632-4656 | every relay failure stops the group except a repeated timeout |
| PositionRun.RaisesExactly | test.py:4659-4867 | over the journal and the driver's returns: a position raises if and only if a storage statement it made outside its sequence was refused, other than a summary by the database, or a relay call of its pre-check raised |
| PositionRun.RaisesWhatWasRaised | test.py:4659-4867 | the exception is the driver's own error whenever one of the two relay calls raised, which masks a refused statement, and otherwise the error of the one refused statement |
| PositionRun.BadAddressRaised | test_control/battery_presence_precheck.py:123-134 | if every statement before it was accepted, an error of `close` is always raised |
| PositionRun.GoesOnExactly | test.py:4784-4867 | an outcome lets the group go on exactly if the relay was never called because the summary was refused, a reading showed battery or NTC missing and the DAQ had not failed, or the sequence completed or met a battery-class exception; only a started sequence can be cancelled |
| PositionRun.OutcomeExactly | test.py:4659-4867 | over the attempt's history, for every position that did not raise: PASS exactly if its sequence completed, CANCELLED exactly if the operator, the keyboard or an OperationCancelledError ended it, SKIPPED exactly if both relay calls returned, no DAQ fault and the readings block, FAIL exactly if the database refused the summary or one of the four battery-class exceptions ended the sequence |
| PositionRun.VerdictRecorded | test.py:4784-4867 | of those whose summary was accepted, the position itself finishes the summary exactly for a blocked start and a fault of the station |
| PositionRun.LogEvents | test.py:4728-4748 | every line under the current run in order, up to the first statement refused, whose error it returns |
| PositionRun.BatteryCheck | test_control/battery_presence_precheck.py:119-134 | the driver is asked for close and, exactly once that returned, for open, with the DMM read over exactly that relay in between; the result is the reading or exactly what the driver or the refused log line raised; RelayLeft says what each end leaves on the wire and energised |
| PositionRun.ReadNtc | test_control/ntc_snapshot.py:85-108 | unwired, failed and read channels are told apart, and a voltage is always classified |
| PositionRun.NtcSnapshot | test_control/ntc_snapshot.py:79-127 | one judged entry per position in order, none without a DAQ, with exactly the rows of each, up to the first refused |
| PositionRun.Reasons | test_control/battery_presence_precheck.py:151-165 | a start is blocked exactly by a readable voltage in (-0.5, 0.5] V or a readable NTC that is not PRESENT, never by a reversed or unreadable battery |
| PositionRun.PresencePrecheck | test_control/battery_presence_precheck.py:83-190 | the verdict of the readings or exactly the error raised, with exactly the statements of the check, up to the first refused; a normal return leaves the bank empty and two settled returns on the wire |
| PositionRun.AfterSequence | test.py:4819-4867 | PASS for a completed sequence, CANCELLED for a cancelled one, FAIL for the battery-class exceptions and a station fault for every other, with exactly the statements that record it, or the error of the one refused |
| PositionRun.RecordBlocked | test.py:4784-4811 | a DAQ fault is a station fault, before a missing reading, which is skipped; each is recorded by exactly its statements, or ends in the error of the one refused |
| PositionRun.RunSequence | test.py:4813-4830 | called only over an empty bank; its statements and relay calls are its own part of the histories |
| PositionRun.RunOnePosition | test.py:4659-4867 | journal and driver returns grow by exactly the attempt's; the result is the one they call for (`OutcomeOf`), and an exception leaves exactly if a statement outside the sequence was refused, other than a summary by the database, or one of the two relay calls raised, that is, if they put fewer than two settled returns on the wire; the relay is called only after the whole traceability log is persisted; with every statement accepted, an address outside the matrix always raises the driver's InvalidChannel |
| GroupRun.RunSlot | test.py:5285-5310 | one turn under a fresh run id with its own summary; its record accounts for every statement and relay return it made, also when it raises, and its result is the first error met or the outcome |
| GroupRun.RunPositions | test.py:5273-5322 | the loop: skips unconfigured positions, stops after the first terminal outcome or the first turn that raises |
| GroupRun.EligibleMembers | test.py:5273-5280 | the positions taken are exactly the configured ones among those asked for |
| GroupRun.RunGroupAllPositions | test.py:5224-5342 | the turns are the configured positions in order up to and including the first that is terminal or raises, under fresh distinct pinned run ids; turns and the run's two events account for the whole journal and all relay returns; it raises exactly when one of the two events or the last turn does, with that error, and otherwise reports exactly the turns; the relay count bound holds throughout |
| GroupRun.GroupRaisesExactly | test.py:5268-5335 | a group run raises if and only if one of its two events was refused or some turn raised, and only the last turn can have |
| GroupRun.TurnRaisesExactly | test.py:5285-5310 | a turn ends in an error if and only if a statement it made outside its sequence was refused, other than a summary by the database, or a relay call of its pre-check raised |
| GroupRun.SequencesStartSafe | test.py:4772-4830 | in every turn, a sequence ran only after a pre-check whose two relay calls returned and whose readings passed, over an empty bank, with its summary started |
| GroupRun.CountsAddUp | test.py:5323-5335 | passed, failed and skipped plus at most one terminal flag make the processed count |
| SenseRouting.NumatoSenseRouter.Connect | hardware/sense_router.py:75-84 | exactly the mapped relay is energised, or an unmapped channel touches nothing; a relay error is the one the driver just raised |
| SenseRouting.NumatoSenseRouter.Disconnect | hardware/sense_router.py:86-87 | the matrix is empty on a normal return; a relay error is the one the driver just raised |
| SenseRouting.ConfigDrivenSenseRouter.RouterForMatrix | hardware/sense_router.py:131-147 | the cached router, or a new one cached only once connected; a matrix without configuration is refused exactly then, one that could not be reached exactly then, and failures leave the cache alone |
| SenseRouting.ConfigDrivenSenseRouter.RouterForChannel | hardware/sense_router.py:149-156 | the router of the matrix the table names, which maps the channel to the table's relay |
| SenseRouting.CreateAndConnect | hardware/sense_router.py:144-145 | a driver for the configured matrix, exactly if it connected |
| SenseRouting.ConfigDrivenSenseRouter.SenseThrough | hardware/sense_router.py:202-207 | the DMM is read between connect and disconnect, over exactly the channel's relay; nothing is read exactly if the connect raised; the voltage, or the DMM's failure, is passed on only after the matrix was emptied |
| SenseRouting.ConfigDrivenSenseRouter.Connect | hardware/sense_router.py:158-159 | through the cache, exactly the table's relay, and no other matrix is touched |
| SenseRouting.ConfigDrivenSenseRouter.Disconnect | hardware/sense_router.py:161-162 | through the cache, the table's matrix is empty, and no other matrix is touched |
| SenseRouting.ConfigDrivenSenseRouter.Shutdown | hardware/sense_router.py:164-176 | every cached matrix is disconnected and the cache is empty |
| SenseRouting.ConfigDrivenSenseRouter.ReadBatteryVoltageViaSense | hardware/sense_router.py:179-207 | the result is exactly what the DMM answers over the channel's relay, voltage or failure; every exit but a failed connect or disconnect leaves the matrix empty, and a failed disconnect masks the DMM's failure |
| SenseRouting.ConfigDrivenSenseRouter.Session | hardware/sense_router.py:131-176 | any sequence of operations keeps the cache equal to the table, each matrix connected once since the last shutdown |
| Thermistor.DefaultExcitationSafe | hardware/temperature.py:61-64 | at 5 V the formula's pole lies beyond the short-circuit margin |
| Thermistor.CelsiusIncreases | hardware/temperature.py:67-93 | on the guarded range the reading exists and rises strictly with the voltage |
| Thermistor.MidpointIsPresent | hardware/temperature.py:67-93 | half the excitation voltage is exactly 25 C and PRESENT, for every supply that leaves a guarded range |
| Thermistor.PhaseNeverFalls | hardware/temperature.py:105-125 | for every excitation voltage: classification fails exactly where the guarded formula's denominator is zero, and otherwise a rising voltage only moves from absent through too cold and present to too hot |
| Thermistor.NeverFailsBelowPole | hardware/temperature.py:105-125 | it never fails when the pole lies beyond the short-circuit margin |
| Thermistor.PresentIsOneInterval | hardware/temperature.py:105-125 | at 5 V PRESENT is one interval containing 2.5 V |
| Thermistor.UnguardedPastThePole | hardware/temperature.py:67-93 | without the guard a voltage just below 5 V reads below absolute zero |
| Thermistor.BothFaultPhasesOccur | hardware/temperature.py:105-125 | 0.06 V is implausibly cold and 4.9 V implausibly hot |

## Left out

- RelayMatrix.NumatoRelayMatrix.SendAndCapture: assumes that an answer belongs to the command just sent; the code does not establish it, since after a failed retry the emergency attempt reuses the socket.
- RelayMatrix.NumatoRelayMatrix.Connect: the login dialogue is one success, refusal, timeout or socket error, because prompt matching and credentials are string heuristics.
- Storage.DataStorage.AllocateSequenceNumber: one successful attempt is one atomic transaction; the statement by statement interleaving is in RunSequence, and an increment committed late is the `LateCommit` event of Workload.
- Storage.DataStorage.Write: column values are one opaque body; `record`, CSV output and `station_state` are not modelled.
- RelayMatrix.NumatoRelayMatrix.StateText: assumes that the echo does not hold the word "on", which `ReadRoundTrip` proves of the command's own echo; `ReadReplyExact` says what happens otherwise.
- Storage.GetMeasurements: only the `run_id` filter; the channel filter and `recent_limit` are not modelled.
- Storage.DataStorage.StartRunSummary: an insert that lands late is taken to land at once or never.
- PositionRun.RunOnePosition: the charge, discharge and cycle sequences may make any public relay calls, write any rows under the position's run and end in any way; what they do to the SMU, and the child runs of a cycle, are not modelled here. A KeyboardInterrupt outside the sequence's handler is not modelled.
- PositionRun.NtcSnapshot: the DAQ driver raises only its own `DAQError`, which is the only class the snapshot catches.
- GroupRun.RunGroupAllPositions: the group's sense router is not constructed or shut down here; SenseRouting models it on its own.
- FaultStop.Trigger: the liveness of each worker after its join is an input; how workers react to a stop request is not modelled.
- Floating-point rounding of voltages, currents and temperatures.
- The raw `relay off`, `reset` and `writeall` of a non-zero mask used only by bench diagnostics.
- `raw_hardware_log`, which resolves its own telemetry file separately, and the audit proxy.
- The `on_event` hooks, log texts, `SMU.measure` and identification calls.
- `should_rotate`, configuration tables, menus, screens and device discovery: they would only add easy members.
- `GroupRuntime`, `SequentialSupervisor` and resource ownership validation at supervisor construction.
