# A verified model of the FogROS2 routing stack

This project models the protocols and state machines of a cloud-robotics routing stack: a Rust router that carries
ROS2 topics and services between machines, and the Python nodes that place services and assign topics.  It is written
in Dafny 4.11.  To verify it: `dafny verify dfyconfig.toml`.

Each part follows one pattern.  A state and the steps between which the program can be interleaved are given as
functions (`Next`, `Step`, `Act`, ...), or as a relation where the program chooses at random.  Where the source updates
objects in place, a class has the same fields and methods, each proved to make exactly one of those steps.  The main
results are lemmas over all runs, in any order of events.

| files | what they model |
|---|---|
| `PacketStructs`, `Utf8`, `KcpFraming`, `ChunkIndependence`, `PingPong` | the header's JSON text and the framing of packets on a KCP stream; exactly which ways of cutting the stream give the packets back, and how a reader recovers |
| `SchedulerState`, `SchedulerRuns`, `SchedulerRoles`, `SchedulerTimeouts`, `SchedulerHistory`, `PolicyScheduler` | the placement scheduler: profiling, timeouts, switches, and what holds over any order of callbacks |
| `Signaling`, `RoutingManager`, `Rendezvous` | topics that replay their log and then broadcast, directions, and how senders and receivers of a name meet over them |
| `KcpSocket`, `KcpStream`, `KcpSession` | waker bookkeeping, reads through a partial buffer, and the server's map of sessions |
| `EndToEnd` | packets from writer to reader through the stream's messages and reads |
| `ServiceRequestManager`, `Rib` | the forwarding table with its first-answer-wins rule, and the name queries that wait for news |
| `SwarmTopology`, `SwarmAssignment` | which routing requests the machines of a tree send, and how topics follow assigned states |
| `TimeBoundAnalyzer` | the sliding window of latencies |

Some properties one would expect do not hold of the code.  The model keeps the code's behaviour, gives an input on
which the property fails, and proves when it does hold:

* The stream is not read back correctly for every way of cutting it.  `ChunkIndependence` gives the condition, and
  `CutBeforeNulLoses`, `PingPayloadLoses`, `SplitNoopLoses` and `SixthLateHeaderLoses` give the failing families.
  With the stream's configuration the cuts follow from the packets, and `PacketsGetThrough` says which packets arrive.
* A pong that a reader answers with is taken for an unfinished header at the other end and costs packets exactly when
  frames follow it (`PongLosesWhatFollows`).  Which frames arrive again after the reader has given the pong up is said
  by `PongIsGivenUp` and `GivenUpAndGoesOn`.
* The robot can lose its role once one of its own profiles has been recorded, which takes parallel profiling:
  `RobotLosesItsPlace` gives such a run from every loaded assignment, and `StepKeepsRobot` and `RobotKeepsItsRole` say
  for every callback and every run exactly when the role is kept.  That there is exactly one service does not depend on
  it (`OneService`).
* Clients that spell a direction with capital letters publish where nobody listens (`WhoIsHeard`,
  `HearsExactlyItsPeers`, and `CapitalsAreNotHeard` for an input).
* The cleanup task of a signaling topic logs that it deletes the topic and then only ends; the topic stays in use and
  nothing in it expires any more.  `CleanupCanEndAtOnce` gives a run; `CleanupEndsWhenIdle` says that it has
  ended exactly when a sweep found nobody subscribed and everything published expired, and `ExpiresUnlessFoundIdle`
  that what is logged can still expire exactly until then.
* A message without bytes is consumed as if nothing had arrived, and whoever waits is not woken for the message
  behind it until the next update or packet (`WaitsBesideAMessage`, `EmptyMessageStrands` for an input).
  `WaitsRightlyUnlessStranded` says for every run exactly when nobody waits beside a message, and `StoredUntilWoken`
  exactly how long a receiver waits.
* An `UPDATE` of a name does not answer who asked for it before (`UpdateLeavesThemWaiting` for an input);
  `AnsweredExactlyWhen` says when a query has been answered.
* Assigning a machine the state it is in adds its topics again, and an undefined state pauses what runs
  (`StepStaysGood`, and `LaunchedAndUpset` for both inputs).
* A state without a list of topics can never be left (`LaunchedWithoutTopics` for an input).  `ChangeSucceeds`,
  `StepSucceeds` and `RunSucceeds` say exactly which changes succeed, and `LeavesUnlessWithoutTopics` exactly when a
  machine can still leave its state.
* The window loses in-duration measurements exactly when there are more of them than it holds
  (`WindowScanIsHistoryFilter`, and `BurstIsNotHeld` for an input).

The comment beside `MAX_ALLOWED_DISCONNCTED_TIME` (`sgc_policy_scheduler.py:22`) says milliseconds; the code compares
it with seconds, and so does the model.

What is assumed of callers and of foreign code appears as `requires` clauses or parameters: the time of a callback,
the machine that `random.choice` picks, the guid drawn for a packet, the outcome of a call into the `kcp` crate, and
whether a socket or channel operation succeeds.

## Model

| member | source | states |
|---|---|---|
| `PacketStructs.GetHeader` | fog_rs/fogrs-common/src/packet_structs.rs:141-173 | The length field is the number of payload and name-record bytes; there is no header exactly when payload and guid are both missing |
| `PacketStructs.DecodeIff` | fog_rs/fogrs-common/src/packet_structs.rs:124-131 | A text decodes to a header if and only if it is the compact text that the writer makes of that header: the round trip both ways, for all texts |
| `PacketStructs.EncodeOfDecode` | fog_rs/fogrs-common/src/packet_structs.rs:124-131 | Whatever decodes is the compact text of what it decodes to |
| `PacketStructs.EncodeInjective` | fog_rs/fogrs-common/src/packet_structs.rs:124-131 | Different headers have different texts |
| `PacketStructs.HeaderText` | fog_rs/fogrs-common/src/packet_structs.rs:124-131 | A header's text is ASCII, has no zero byte, and has its only closing brace at the end |
| `PacketStructs.NoPrefixDecodes` | fog_rs/fogrs-common/src/packet_structs.rs:124-131 | No proper prefix of a header's text decodes, so an unfinished header is never taken for a finished one |
| `PacketStructs.GetActionIff` | fog_rs/fogrs-common/src/packet_structs.rs:12-25 | The twelve action names are told apart, whatever follows them |
| `PacketStructs.GetNamedIff` | fog_rs/fogrs-common/src/packet_structs.rs:67-68 | A labelled name is read back exactly when it was written so |
| `PacketStructs.GetLengthIff` | fog_rs/fogrs-common/src/packet_structs.rs:130 | A length up to 2^64-1 is read back exactly when it was written so |
| `PacketStructs.LengthsThatFit` | fog_rs/fogrs-common/src/packet_structs.rs:130 | A length is read back exactly if it fits into 64 bits |
| `PacketStructs.HeaderIsJson` | fog_rs/fogrs-common/src/packet_structs.rs:124-131 | The text of every header, member by member, with its punctuation |
| `PacketStructs.ActionNames` | fog_rs/fogrs-common/src/packet_structs.rs:12-25 | The names by which the twelve actions travel |
| `Utf8.ValidUtf8Iff` | fog_rs/fogrs-core/src/network/kcp.rs:40 | Text passes the check that is unwrapped if and only if it is the encoding of some sequence of Unicode scalar values |
| `KcpFraming.WritePacket` | fog_rs/fogrs-core/src/network/kcp.rs:180-221 | The loop makes exactly the writes header text with zero byte, payload in pieces of at most 65535 bytes, name record, no byte twice or missing; nothing is written exactly when the header panics |
| `KcpFraming.ParseHeaderPayloadPairs` | fog_rs/fogrs-core/src/network/kcp.rs:16-67 | The loop computes the recursive meaning of a buffer: complete frames, the unfinished one, or a panic |
| `KcpFraming.Parse` | fog_rs/fogrs-core/src/network/kcp.rs:54-56 | What is left over with a finished header is always shorter than its length field |
| `KcpFraming.Reader.Feed` | fog_rs/fogrs-core/src/network/kcp.rs:95-177 | Between reads a carried-over payload is always unfinished |
| `KcpFraming.Connection.constructor` | fog_rs/fogrs-core/src/network/kcp.rs:76-85 | The reader's first state |
| `KcpFraming.Connection.OnRead` | fog_rs/fogrs-core/src/network/kcp.rs:95-151 | One read takes the fields to the state that the specification of a read gives |
| `KcpFraming.Connection.OnLateHeader` | fog_rs/fogrs-core/src/network/kcp.rs:118-130 | More of an unfinished header is one read of the specification, with the counter that gives it up |
| `KcpFraming.Connection.OnMorePayload` | fog_rs/fogrs-core/src/network/kcp.rs:131-150 | More of an unfinished payload is one read of the specification, in each of the three cases of its length |
| `KcpFraming.Connection.HandOn` | fog_rs/fogrs-core/src/network/kcp.rs:153-177 | The rest of a read: parsed frames are handed on in order and the unfinished one is kept |
| `ChunkIndependence.ParseHeaderPrefix` | fog_rs/fogrs-core/src/network/kcp.rs:38-50 | A buffer that ends within a header yields nothing and keeps its bytes |
| `ChunkIndependence.ParseHeaderAlone` | fog_rs/fogrs-core/src/network/kcp.rs:51-52 | A buffer that ends just before a header's zero byte panics |
| `ChunkIndependence.ParseAfterHeader` | fog_rs/fogrs-core/src/network/kcp.rs:51-65 | A header and its zero byte are taken off and the length field says how much belongs to them |
| `ChunkIndependence.FeedCredit` | fog_rs/fogrs-core/src/network/kcp.rs:95-177 | No read makes the reader account for more bytes than it was given; a swallowed ping and a sixth late header account for less |
| `ChunkIndependence.AbsorbAt` | fog_rs/fogrs-core/src/network/kcp.rs:153-177 | Parsing any prefix of the written stream puts the reader exactly where the prefix ends, or loses bytes |
| `ChunkIndependence.RunFrom` | fog_rs/fogrs-core/src/network/kcp.rs:95-177 | The main result from any point of the stream, with anything handed on before and any number of late headers behind it |
| `ChunkIndependence.IdleReaderGoesOn` | fog_rs/fogrs-core/src/network/kcp.rs:95-177 | A reader that is between two packets hands on exactly the frames that follow if and only if they are cut safely, whatever it has been through |
| `ChunkIndependence.GivenUpAndGoesOn` | fog_rs/fogrs-core/src/network/kcp.rs:118-130 | A reader that has waited five times for the rest of a header gives up what it holds with the next read, and what follows that read arrives if and only if it is cut safely, with the counter at zero again |
| `ChunkIndependence.ChunkIndependence` | fog_rs/fogrs-core/src/network/kcp.rs:95-177 | For all frames and all cuts of their bytes into non-empty reads, exactly the frames arrive in order if and only if the cuts are safe: none before a zero byte, no Noop split from its payload, no read equal to ping, at most five reads that arrive while a header is unfinished |
| `ChunkIndependence.PacketsArrive` | fog_rs/fogrs-core/src/network/kcp.rs:95-221 | The same from packets to packets: each arrives once, in order, its payload followed by its name record |
| `ChunkIndependence.CutBeforeNulLoses` | fog_rs/fogrs-core/src/network/kcp.rs:52 | A cut just before a header's zero byte ends the reader for good: nothing that is read from then on is handed on |
| `ChunkIndependence.PingPayloadLoses` | fog_rs/fogrs-core/src/network/kcp.rs:105-111 | A payload that arrives as a read equal to ping is lost |
| `ChunkIndependence.SplitNoopLoses` | fog_rs/fogrs-core/src/network/kcp.rs:118-130 | A Noop packet whose payload comes in a later read is lost |
| `ChunkIndependence.SixthLateHeaderLoses` | fog_rs/fogrs-core/src/network/kcp.rs:118-130 | A header whose first six bytes come one by one is given up, and one of which five do is not |
| `PingPong.PingsDoNotMatter` | fog_rs/fogrs-core/src/network/kcp.rs:104-111 | For all streams of frames and pings, each ping in a read of its own, the packets arrive if and only if the other reads are safe |
| `PingPong.PongLosesWhatFollows` | fog_rs/fogrs-core/src/network/kcp.rs:107-130 | For all frames before a pong, read safely, and all frames after it in any reads, every packet arrives if and only if no frame follows the pong |
| `PingPong.PongIsGivenUp` | fog_rs/fogrs-core/src/network/kcp.rs:107-130 | A reader stuck after a pong recovers: unless it panics on the way, the read that makes six late ones is the last to be lost, and what follows arrives if and only if it is cut safely |
| `PingPong.PingsOfAConnection` | fog_rs/fogrs-core/src/network/kcp.rs:104-111 | A reader that still runs has sent one pong for each ping that came in a read of its own, and no other |
| `SchedulerState.FirstWith` | sgc_launch/sgc_launch/sgc_policy_scheduler.py:689-699 | The first machine in dictionary order that has a role, or none if none has it |
| `SchedulerState.Least` | sgc_launch/sgc_launch/sgc_policy_scheduler.py:541-551 | A candidate of least maximal latency |
| `SchedulerState.LeastIsEarliest` | sgc_launch/sgc_launch/sgc_policy_scheduler.py:541-551 | Every candidate before the chosen one is strictly slower (the sort is stable) |
| `SchedulerState.BestIsLeast` | sgc_launch/sgc_launch/sgc_policy_scheduler.py:515-555 | The choice is optimal: among the recorded candidates within the bounds the least maximal latency, else among the connected ones, else none |
| `SchedulerState.BestIffChoice` | sgc_launch/sgc_launch/sgc_policy_scheduler.py:515-555 | The search returns a machine if and only if it is a recorded candidate that outranks every earlier candidate and is outranked by no later one |
| `SchedulerState.OutOfBounds` | sgc_launch/sgc_launch/sgc_policy_scheduler.py:442-501 | When a profile is out of bounds, limit by limit, with -1 for what is switched off |
| `SchedulerState.Passed` | sgc_launch/sgc_launch/sgc_policy_scheduler.py:518-523 | Exactly the recorded machines that are connected, not excluded and within the bounds |
| `SchedulerState.Linked` | sgc_launch/sgc_launch/sgc_policy_scheduler.py:524-525 | Exactly the recorded machines that are connected and not excluded |
| `SchedulerRuns.InitiallyInv` | sgc_launch/sgc_launch/sgc_policy_scheduler.py:681-687 | An assignment loaded with one robot and one service satisfies the invariant |
| `SchedulerRuns.SwitchEffect` | sgc_launch/sgc_launch/sgc_policy_scheduler.py:621-645 | A switch swaps exactly two roles and leaves exactly one service |
| `SchedulerRuns.EveryoneServes` | sgc_launch/sgc_launch/sgc_policy_scheduler.py:647-663 | After switching everything on, every machine but the robot serves |
| `SchedulerRuns.OnlyServiceEffect` | sgc_launch/sgc_launch/sgc_policy_scheduler.py:665-679 | After switching all off but one, exactly that machine serves and a robot elsewhere is untouched |
| `SchedulerRuns.UnprofiledIs` | sgc_launch/sgc_launch/sgc_policy_scheduler.py:503-513 | The machines to profile are those other than the robot that are neither recorded nor disconnected |
| `SchedulerRuns.StepKeepsInv` | sgc_launch/sgc_launch/sgc_policy_scheduler.py:203-417 | The invariant of the profiling results, by which the robot moreover has no profile, is kept exactly until a profile of the robot is recorded; when the role itself is kept is `SchedulerRoles.StepKeepsRobot` |
| `SchedulerRuns.StepKeepsCanStep` | sgc_launch/sgc_launch/sgc_policy_scheduler.py:203-417 | Every callback leaves a service, and during parallel profiling a machine to fall back to, so that every callback can be handled next |
| `SchedulerRuns.RunKeepsInv` | sgc_launch/sgc_launch/sgc_policy_scheduler.py:203-417 | In every run that records no profile of the robot that invariant lasts |
| `SchedulerRuns.ProfilingStarts` | sgc_launch/sgc_launch/sgc_policy_scheduler.py:233-240 | A profiling request outside profiling starts with every machine but the robot to profile and with a service that is one of them, whatever was recorded before |
| `SchedulerRuns.ConsumingStep` | sgc_launch/sgc_launch/sgc_policy_scheduler.py:340-394 | A timeout or an accepted profile takes exactly the current machine off the list, and either goes on or ends with the right service |
| `SchedulerRuns.OtherStep` | sgc_launch/sgc_launch/sgc_policy_scheduler.py:288-349 | Every other message leaves the list as it is |
| `SchedulerRuns.SerialProfiling` | sgc_launch/sgc_launch/sgc_policy_scheduler.py:233-240 | Serial profiling terminates and is complete: machines left plus machines consumed is constant, it is over exactly when all are consumed, and then results and disconnected machines partition the machines and the best serves |
| `SchedulerRuns.RequestsMirrorAssignment` | sgc_launch/sgc_launch/sgc_policy_scheduler.py:635-679 | In every run the assignment requests sent, replayed in order, give the scheduler's own assignment |
| `SchedulerRoles.SwitchStaysSingle` | sgc_launch/sgc_launch/sgc_policy_scheduler.py:621-645 | A switch leaves exactly one service where there was one, the machine switched to |
| `SchedulerRoles.StepStaysSteady` | sgc_launch/sgc_launch/sgc_policy_scheduler.py:203-417 | Every callback leaves one service outside parallel profiling, whoever is profiled |
| `SchedulerRoles.OneService` | sgc_launch/sgc_launch/sgc_policy_scheduler.py:203-417 | In every run of callbacks in any order exactly one machine serves while parallel profiling is off and at least one while it is on; nothing is assumed of the profiles |
| `SchedulerRoles.StepRobots` | sgc_launch/sgc_launch/sgc_policy_scheduler.py:203-417 | After one callback the robots are those before, without the robot exactly if the guards say that it is displaced; nobody ever becomes a robot |
| `SchedulerRoles.StepKeepsRobot` | sgc_launch/sgc_launch/sgc_policy_scheduler.py:203-417 | The only robot keeps its role if and only if the callback does not displace it: get-best, the choice after parallel profiling, a timeout, a profile outside the limits, or the end of serial profiling, each when the robot is the best recorded machine |
| `SchedulerRoles.RobotKeepsItsRole` | sgc_launch/sgc_launch/sgc_policy_scheduler.py:203-417 | Over every run the robot keeps its role throughout if and only if no call displaces it, and a lost role is never given again |
| `SchedulerRoles.ParallelChoice` | sgc_launch/sgc_launch/sgc_policy_scheduler.py:258-273 | The case of the choice after parallel profiling |
| `SchedulerRoles.UnrecordedIsUndisplaced` | sgc_launch/sgc_launch/sgc_policy_scheduler.py:203-417 | A robot of which no profile is recorded is never displaced |
| `SchedulerRoles.RobotLosesItsPlace` | sgc_launch/sgc_launch/sgc_policy_scheduler.py:222-314 | From every loaded assignment with one robot and one service: a request for parallel profiling, six connected profiles of the robot and the request for the best machine are a run that ends without a robot |
| `SchedulerTimeouts.SpareSwitch` | sgc_launch/sgc_launch/sgc_policy_scheduler.py:621-645 | A switch to another recorded machine leaves one machine fewer to switch to, unless the old service was recorded |
| `SchedulerTimeouts.RunningStep` | sgc_launch/sgc_launch/sgc_policy_scheduler.py:351-417 | While running, the recorded machines other than the service never grow, and each timeout that moves the service takes one |
| `SchedulerTimeouts.TimeoutsAreBounded` | sgc_launch/sgc_launch/sgc_policy_scheduler.py:351-378 | Without new profiling, timeout switches are at most the recorded machines other than the service, whatever was recorded |
| `SchedulerHistory.TimesOutWhenSilent` | sgc_launch/sgc_launch/sgc_policy_scheduler.py:36-77 | By a machine's history of switches and profiles: it times out if nothing was heard since the last switch and that was at least 10 s ago, or it was last heard of more than 10 s ago; and its profiles count from the sixth connected one since the last switch |
| `SchedulerHistory.RecordIsHistory` | sgc_launch/sgc_launch/sgc_policy_scheduler.py:288-332 | In every run a machine's record is what the switches and profiles that concern it leave of the first one |
| `SchedulerHistory.SilentServiceTimesOut` | sgc_launch/sgc_launch/sgc_policy_scheduler.py:301-394 | In every run, at a profile message outside parallel profiling: exactly when the service is silent by its history it is counted as disconnected or struck off the results, and exactly when it is not, is profiled and has sent its sixth connected profile it is recorded |
| `SchedulerHistory.RunningService` | sgc_launch/sgc_launch/sgc_policy_scheduler.py:301-417 | In every run, who serves after a profile message while nothing is profiled: the choice without the service if it is silent or out of bounds with automatic switching on, and otherwise the same machine |
| `SchedulerHistory.ParallelRecords` | sgc_launch/sgc_launch/sgc_policy_scheduler.py:289-316 | In every run, when a profile is recorded in parallel profiling and when the results become ready |
| `SchedulerHistory.OpeningIsRemembered` | sgc_launch/sgc_launch/sgc_policy_scheduler.py:243-256 | The start of parallel profiling and the service of that moment are kept until the next one |
| `SchedulerHistory.FallsBackToEarlierService` | sgc_launch/sgc_launch/sgc_policy_scheduler.py:258-274 | If nobody is connected after parallel profiling, the machine that served when it began is the only service again |
| `SchedulerHistory.BestOfParallelServes` | sgc_launch/sgc_launch/sgc_policy_scheduler.py:258-274 | Nothing happens before the results are ready; then the chosen machine is the only service |
| `SchedulerHistory.BestServesWhenAsked` | sgc_launch/sgc_launch/sgc_policy_scheduler.py:203-206 | Asking for the best machine makes the choice among all recorded ones serve |
| `SchedulerHistory.ParallelRequestOpens` | sgc_launch/sgc_launch/sgc_policy_scheduler.py:243-256 | Parallel profiling starts from nothing, with the standby machines serving too, and only when nothing is profiled |
| `SchedulerHistory.ProfilingRequestBegins` | sgc_launch/sgc_launch/sgc_policy_scheduler.py:233-240 | Serial profiling starts from nothing, and only when nothing is profiled |
| `SchedulerHistory.CanMoveOn` | sgc_launch/sgc_launch/sgc_policy_scheduler.py:595-619 | There is always a next machine or an end, and a service that alone is left to profile stays |
| `SchedulerHistory.EveryCallHasAnOutcome` | sgc_launch/sgc_launch/sgc_policy_scheduler.py:203-417 | Every callback has an outcome in every state |
| `PolicyScheduler.SgcService.constructor` | sgc_launch/sgc_launch/sgc_policy_scheduler.py:26-34 | A new record, switched on now |
| `PolicyScheduler.SgcService.Update` | sgc_launch/sgc_launch/sgc_policy_scheduler.py:36-40 | Only a connected profile counts as a connection |
| `PolicyScheduler.SgcService.CheckTimeout` | sgc_launch/sgc_launch/sgc_policy_scheduler.py:42-67 | Timed out as the record says: at ten seconds since the switch, or after more than ten since the last connection |
| `PolicyScheduler.SgcService.Reset` | sgc_launch/sgc_launch/sgc_policy_scheduler.py:73-76 | The record after a switch |
| `PolicyScheduler.Scheduler.constructor` | sgc_launch/sgc_launch/sgc_policy_scheduler.py:681-687 | The loaded assignment is the abstract state, and callbacks can be handled exactly when it has a service |
| `PolicyScheduler.Scheduler.GetStandbyMachineList` | sgc_launch/sgc_launch/sgc_policy_scheduler.py:701-706 | The loop collects the standby machines in order |
| `PolicyScheduler.Scheduler.GetNonRobotMachineList` | sgc_launch/sgc_launch/sgc_policy_scheduler.py:708-713 | The loop collects the machines other than robots in order |
| `PolicyScheduler.Scheduler.GetAMachineWithBetterProfile` | sgc_launch/sgc_launch/sgc_policy_scheduler.py:515-555 | The loop and the sort compute the optimal choice |
| `PolicyScheduler.Scheduler.SwitchToMachine` | sgc_launch/sgc_launch/sgc_policy_scheduler.py:621-645 | Two resets and two requests in the source's order |
| `PolicyScheduler.Scheduler.SwitchAndSearch` | sgc_launch/sgc_launch/sgc_policy_scheduler.py:203-206 | After a switch the search finds the same machine again |
| `PolicyScheduler.Scheduler.SwitchToAll` | sgc_launch/sgc_launch/sgc_policy_scheduler.py:647-663 | One request for each standby machine |
| `PolicyScheduler.Scheduler.SwitchOffAllButOne` | sgc_launch/sgc_launch/sgc_policy_scheduler.py:665-679 | Standby requests first, then the one service |
| `PolicyScheduler.Scheduler.SwitchToNextUnprofiledMachine` | sgc_launch/sgc_launch/sgc_policy_scheduler.py:595-619 | Moves to some unprofiled machine other than the service, or ends profiling |
| `PolicyScheduler.Scheduler.FinishProfiling` | sgc_launch/sgc_launch/sgc_policy_scheduler.py:598-604 | The end of serial profiling |
| `PolicyScheduler.Scheduler.HandleTimeout` | sgc_launch/sgc_launch/sgc_policy_scheduler.py:351-378 | Both kinds of timeout |
| `PolicyScheduler.Scheduler.SerialProfile` | sgc_launch/sgc_launch/sgc_policy_scheduler.py:316-349 | A profile message outside parallel profiling is a step of the specification |
| `PolicyScheduler.Scheduler.ParallelProfile` | sgc_launch/sgc_launch/sgc_policy_scheduler.py:288-314 | A profile message during parallel profiling is a step of the specification, and fails exactly for an unknown machine |
| `PolicyScheduler.Scheduler.ProfileTopicCallback` | sgc_launch/sgc_launch/sgc_policy_scheduler.py:288-349 | Every profile message is a step of the specification |
| `PolicyScheduler.Scheduler.SgcProfilingOptimizerCallback` | sgc_launch/sgc_launch/sgc_policy_scheduler.py:212-240 | The profiling request is a step of the specification |
| `PolicyScheduler.Scheduler.SgcParallelProfilingCallback` | sgc_launch/sgc_launch/sgc_policy_scheduler.py:222-256 | The parallel profiling request is a step of the specification |
| `PolicyScheduler.Scheduler.GetMachineWithBetterProfileCallback` | sgc_launch/sgc_launch/sgc_policy_scheduler.py:203-206 | Get-best is a step of the specification and fails exactly when no recorded machine is connected |
| `PolicyScheduler.Scheduler.SgcParallelProfilingBestCallback` | sgc_launch/sgc_launch/sgc_policy_scheduler.py:258-273 | Get-best after parallel profiling is a step of the specification |
| `Signaling.LiveTopic.constructor` | fog_rs/fogrs-signaling/src/lib.rs:27-36 | A new topic is empty and its cleanup task runs |
| `Signaling.LiveTopic.Append` | fog_rs/fogrs-signaling/src/lib.rs:67-68 | The message is in the log with its time, under the lock |
| `Signaling.LiveTopic.CheckReceivers` | fog_rs/fogrs-signaling/src/lib.rs:69-75 | Without receivers the publication is over |
| `Signaling.LiveTopic.Broadcast` | fog_rs/fogrs-signaling/src/lib.rs:70-72 | Every registered receiver is offered the message and the lock is released |
| `Signaling.LiveTopic.Register` | fog_rs/fogrs-signaling/src/lib.rs:80 | A receiver starts with an empty queue |
| `Signaling.LiveTopic.ReplayLog` | fog_rs/fogrs-signaling/src/lib.rs:81-90 | The loop writes the whole log as copied under the lock |
| `Signaling.LiveTopic.Receive` | fog_rs/fogrs-signaling/src/lib.rs:93-101 | The oldest queued message is written |
| `Signaling.LiveTopic.Disconnect` | fog_rs/fogrs-signaling/src/lib.rs:86-89 | The receiver is gone |
| `Signaling.LiveTopic.Tick` | fog_rs/fogrs-signaling/src/lib.rs:49 | The cleanup task reads the time before it waits for the lock |
| `Signaling.LiveTopic.Sweep` | fog_rs/fogrs-signaling/src/lib.rs:50-60 | Expired entries leave the log, and the cleanup ends if the log is empty and nobody listens |
| `Signaling.Server.HandleSubscribe` | fog_rs/fogrs-signaling/src/lib.rs:153-164 | The topic of the key, made on demand; no other entry changes |
| `Signaling.Server.HandlePublish` | fog_rs/fogrs-signaling/src/lib.rs:144-152 | One publication to the topic of the key; no other entry changes and none is removed |
| `Signaling.LogIsSurviving` | fog_rs/fogrs-signaling/src/lib.rs:38-76 | In every interleaving the log is exactly the messages younger than 60 s at the last sweep, in order |
| `Signaling.Milestones` | fog_rs/fogrs-signaling/src/lib.rs:78-81 | A subscriber registers before it copies the log |
| `Signaling.AlwaysServed` | fog_rs/fogrs-signaling/src/lib.rs:65-107 | Messages written, queued and lost always add up to the messages due |
| `Signaling.StreamIsDue` | fog_rs/fogrs-signaling/src/lib.rs:65-107 | In every interleaving the subscriber's stream is the unexpired log at its copy followed by all publications since it registered, if and only if its queue never overflowed |
| `Signaling.LostIsOverflows` | fog_rs/fogrs-signaling/src/lib.rs:92-106 | What a subscriber has lost are exactly the publications that found its queue of 100 full |
| `Signaling.SubscribedIs` | fog_rs/fogrs-signaling/src/lib.rs:78-107 | Subscribed are exactly those who registered and have not disconnected since |
| `Signaling.PublishOffers` | fog_rs/fogrs-signaling/src/lib.rs:65-76 | An uninterrupted publication is logged and offered to every subscriber, and stops after the check exactly if there is none |
| `Signaling.OneAtATime` | fog_rs/fogrs-signaling/src/lib.rs:44-80 | The log is written, copied and swept only between publications, and the clock is read once for each sweep |
| `Signaling.EveryoneCanCatchUp` | fog_rs/fogrs-signaling/src/lib.rs:78-107 | From every state of every run a subscriber can be written all that is due to it |
| `Signaling.NobodyIsShutOut` | fog_rs/fogrs-signaling/src/lib.rs:65-80 | From every state of every run anybody can subscribe and another message can be published |
| `Signaling.Copies` | fog_rs/fogrs-signaling/src/lib.rs:65-107 | Each message arrives exactly once per part it belongs to, so twice only if published between the two subscribe steps and never only if it had expired |
| `Signaling.Arrives` | fog_rs/fogrs-signaling/src/lib.rs:65-107 | Nothing unexpired is missed, also among equal messages |
| `Signaling.NothingElseArrives` | fog_rs/fogrs-signaling/src/lib.rs:65-107 | Nothing arrives that was not published |
| `Signaling.CleanupEndsWhenIdle` | fog_rs/fogrs-signaling/src/lib.rs:38-62 | In every run the cleanup task has ended if and only if one of its sweeps met nobody subscribed and everything published by then at least 60 s old |
| `Signaling.SweepOfEverything` | fog_rs/fogrs-signaling/src/lib.rs:51-54 | Sweeping what is left of the log is sweeping everything ever published |
| `Signaling.ExpiresUnlessFoundIdle` | fog_rs/fogrs-signaling/src/lib.rs:38-62 | From any run that ends with a log, some continuation drops one of its entries if and only if the topic was never found idle |
| `Signaling.NothingExpiresAfterCleanup` | fog_rs/fogrs-signaling/src/lib.rs:38-62 | Once a sweep has found the topic idle the log only grows, although the topic stays in use |
| `Signaling.CleanupCanEndAtOnce` | fog_rs/fogrs-signaling/src/lib.rs:44-60 | The first sweep can find the topic idle before the first message, after which a message of any age stays in the log |
| `RoutingManager.FlipDirection` | fog_rs/fogrs-core/src/routing_manager.rs:45-61 | The loop over the table finds the opposite direction and panics on any other text |
| `RoutingManager.FlipIsAnInvolution` | fog_rs/fogrs-core/src/routing_manager.rs:45-61 | Flipping twice gives back the direction in lower case, and never the direction itself |
| `RoutingManager.FlipIgnoresCase` | fog_rs/fogrs-core/src/routing_manager.rs:45-61 | Letter case does not matter, and exactly the six directions are known |
| `RoutingManager.OppositeTypes` | fog_rs/fogrs-core/src/routing_manager.rs:32-61 | Both lookups know the same directions, and flipping gives the opposite connection type |
| `RoutingManager.DirectionsAre` | fog_rs/fogrs-core/src/routing_manager.rs:32-44 | Which direction, in any letter case, has which connection type |
| `RoutingManager.TopicKeyInjective` | fog_rs/fogrs-core/src/routing_manager.rs:383-391 | Different names or directions never share a signaling topic |
| `RoutingManager.TopicKeyIs` | fog_rs/fogrs-core/src/routing_manager.rs:385-402 | The key is the printed name, a hyphen and the direction |
| `RoutingManager.HexByteIs` | fog_rs/fogrs-common/src/packet_structs.rs:69-78 | Each byte of a name is printed as two hexadecimal digits, the high one first |
| `RoutingManager.WhoIsHeard` | fog_rs/fogrs-core/src/routing_manager.rs:383-404 | A client listens where another publishes if and only if they are opposite ends and the other's direction is in lower case |
| `RoutingManager.CapitalsAreNotHeard` | fog_rs/fogrs-core/src/routing_manager.rs:383-404 | The input: a sender that spells PUBSUB-sender hears the receiver of its name and is not heard by it |
| `RoutingManager.EndsAreSymmetric` | fog_rs/fogrs-core/src/routing_manager.rs:45-61 | Being opposite ends is symmetric |
| `Rendezvous.TopicsRun` | fog_rs/fogrs-signaling/src/lib.rs:121-169 | Every topic of the server only makes steps that its own rules allow |
| `Rendezvous.AlwaysRight` | fog_rs/fogrs-signaling/src/lib.rs:141-164 | In every interleaving of requests a client's topics are those of its keys, also while a publication fills a new topic |
| `Rendezvous.AlwaysDiffer` | fog_rs/fogrs-signaling/src/lib.rs:141-164 | Different keys never share a topic |
| `Rendezvous.AlwaysHeld` | fog_rs/fogrs-signaling/src/lib.rs:141-152 | A topic is locked only by the publication that holds the server's map |
| `Rendezvous.AlwaysSaid` | fog_rs/fogrs-signaling/src/lib.rs:144-152 | A publication's message is in the topic of its key once it was appended |
| `Rendezvous.AlwaysFromAClient` | fog_rs/fogrs-signaling/src/lib.rs:144-152 | Every message in a topic is that of a client that published there |
| `Rendezvous.OppositeIsHeard` | fog_rs/fogrs-core/src/routing_manager.rs:383-410 | Whoever publishes where a client listens is heard by it |
| `Rendezvous.OnlyOppositesAreHeard` | fog_rs/fogrs-core/src/routing_manager.rs:383-410 | A client hears nobody else |
| `Rendezvous.HearsExactlyItsPeers` | fog_rs/fogrs-core/src/routing_manager.rs:383-410 | Once all requests are handled and streams drained, without expiry or overflow, a client has exactly the candidates of its opposite ends that spell their direction in lower case |
| `Rendezvous.PeersMeet` | fog_rs/fogrs-core/src/routing_manager.rs:579-606 | Two opposite ends of one name get each other's candidates in every order of their four requests |
| `Rendezvous.PeersCanMeet` | fog_rs/fogrs-signaling/src/lib.rs:121-169 | Every pair of opposite ends in lower case has a run after which both requests are handled, both have caught up, and each was written the other's candidates and nothing else |
| `Rendezvous.RegistersOnce` | fog_rs/fogrs-signaling/src/lib.rs:78-80 | In every run a client registers at most once, with the topic it looked up |
| `KcpSocket.NoWakeUpIsLost` | fog_rs/fogrs-kcp/src/skcp.rs:120-192 | In every run each task told to wait is still stored or has been woken since |
| `KcpSocket.StepKeeps` | fog_rs/fogrs-kcp/src/skcp.rs:120-295 | Each operation keeps that |
| `KcpSocket.WaitsForAReason` | fog_rs/fogrs-kcp/src/skcp.rs:249-285 | After each update and each input carried through, a task that still waits to send finds no room or no conversation number, and one that waits to receive finds nothing to read |
| `KcpSocket.SendsWithRoom` | fog_rs/fogrs-kcp/src/skcp.rs:143-194 | In every run a send is refused exactly after the close, waits exactly if something was sent before and the local window or the remote window is full or a conversation number is awaited, and otherwise goes to the crate |
| `KcpSocket.SentMeansSent` | fog_rs/fogrs-kcp/src/skcp.rs:151-180 | Waiting for room begins with the first bytes that the crate took before the close |
| `KcpSocket.ReceivesInOrder` | fog_rs/fogrs-kcp/src/skcp.rs:208-237 | In every run a receive ends, waits, leaves what does not fit, or takes the first message, and which |
| `KcpSocket.WokenExactly` | fog_rs/fogrs-kcp/src/skcp.rs:120-295 | An event wakes a task if and only if another waker takes its place, an input or update that is carried through shows room in both windows without a number awaited, or bytes, or the socket is closed |
| `KcpSocket.ClosedIsFinal` | fog_rs/fogrs-kcp/src/skcp.rs:287-295 | After close nobody is stored, everybody who waited has been woken and no later poll waits |
| `KcpSocket.WaitsRightlyUnlessStranded` | fog_rs/fogrs-kcp/src/skcp.rs:140-258 | Throughout a run whoever waits to receive finds nothing to read if and only if no event strands a receiver: no empty message taken from before another one, and no message brought by an event that wakes nobody |
| `KcpSocket.WaitingStep` | fog_rs/fogrs-kcp/src/skcp.rs:140-258 | The same for one event |
| `KcpSocket.StoredUntilWoken` | fog_rs/fogrs-kcp/src/skcp.rs:140-258 | Over any stretch of a run a receiver stays stored if and only if each event leaves it: no input or update carried through with something to read, no other receiver, no close |
| `KcpSocket.ReceiverStep` | fog_rs/fogrs-kcp/src/skcp.rs:140-258 | One event leaves a stored receiver or wakes it, and which |
| `KcpSocket.WaitsBesideAMessage` | fog_rs/fogrs-kcp/src/skcp.rs:213-228 | In every run a receive that is told to wait leaves a message unread exactly behind a message without bytes, and stays stored through sends, failed inputs and failed updates |
| `KcpSocket.EmptyMessageStrands` | fog_rs/fogrs-kcp/src/skcp.rs:213-228 | An input with an empty message and another one behind it: the next receive waits, unwoken, beside a readable message |
| `KcpSocket.Socket.constructor` | fog_rs/fogrs-kcp/src/skcp.rs:106-116 | A new socket stores nobody |
| `KcpSocket.Socket.PollSend` | fog_rs/fogrs-kcp/src/skcp.rs:143-192 | Waits, fails or sends exactly when the guards say, and cuts the first packet to one segment while a number is awaited |
| `KcpSocket.Socket.PollRecv` | fog_rs/fogrs-kcp/src/skcp.rs:208-236 | Takes the next message exactly when it has bytes and fits, and waits exactly when there is none with bytes next |
| `KcpSocket.Socket.TryWakePendingWaker` | fog_rs/fogrs-kcp/src/skcp.rs:249-275 | Wakes whom it can, and says whether it did |
| `KcpSocket.Socket.Input` | fog_rs/fogrs-kcp/src/skcp.rs:120-140 | Wakes only if the packet was taken and no flush failed |
| `KcpSocket.Socket.Update` | fog_rs/fogrs-kcp/src/skcp.rs:277-285 | Wakes only if the update succeeded |
| `KcpSocket.Socket.Close` | fog_rs/fogrs-kcp/src/skcp.rs:287-295 | Wakes everybody |
| `KcpStream.BytesAreConserved` | fog_rs/fogrs-kcp/src/stream.rs:92-141 | In every run the bytes returned, then those buffered, then those queued are the bytes that arrived |
| `KcpStream.ReadTakesTheFront` | fog_rs/fogrs-kcp/src/stream.rs:92-141 | One read takes its bytes off the front of what is left and never more than there is room for |
| `KcpStream.EndOfFile` | fog_rs/fogrs-kcp/src/stream.rs:92-141 | A read with room reports the end exactly when the socket is closed and nothing is buffered |
| `KcpStream.WaitsForBytes` | fog_rs/fogrs-kcp/src/stream.rs:109-138 | A read waits exactly when an open stream has nothing buffered and no message with bytes next |
| `KcpStream.ClosingCutsOff` | fog_rs/fogrs-kcp/src/stream.rs:109-138 | After closing, the bytes never returned are exactly the messages in the socket then and later |
| `KcpStream.Stream.constructor` | fog_rs/fogrs-kcp/src/stream.rs:68-75 | An empty buffer |
| `KcpStream.Stream.TakeBuffered` | fog_rs/fogrs-kcp/src/stream.rs:95-104 | Copies as much of the buffered bytes as fits and touches nothing else of the caller's buffer |
| `KcpStream.Stream.Grow` | fog_rs/fogrs-kcp/src/stream.rs:126-129 | The buffer is long enough and its unread bytes are unchanged |
| `KcpStream.Stream.ReadDirectly` | fog_rs/fogrs-kcp/src/stream.rs:109-123 | The next message goes straight to the caller's buffer |
| `KcpStream.Stream.FillBuffer` | fog_rs/fogrs-kcp/src/stream.rs:125-139 | The next message goes to the stream's buffer, or the read is over |
| `KcpStream.Stream.PollRecv` | fog_rs/fogrs-kcp/src/stream.rs:92-141 | The loop is one read of the specification, ends after at most two rounds, never fails, and keeps position, capacity and length in order |
| `EndToEnd.PacketsGetThrough` | fog_rs/fogrs-core/src/network/kcp.rs:89-221 | From packets through writes, stream messages and reads of 65535 bytes to packets: once all is read, exactly the packets sent were handed on, in order, if and only if no Noop carries anything and no payload or name record ends in a read equal to ping |
| `EndToEnd.PacketsCrossTheStream` | fog_rs/fogrs-core/src/network/kcp.rs:89-177 | However the packets' bytes arrive on the stream as messages and with reads of any one size, all packets are handed on if and only if the reads cut them safely |
| `EndToEnd.ReadsAreCuts` | fog_rs/fogrs-kcp/src/stream.rs:92-141 | In every run with reads of one size the reads, then what is left to read, are the arrived messages, each cut from its front into pieces of that size |
| `EndToEnd.EndDeliversNothing` | fog_rs/fogrs-core/src/network/kcp.rs:91-98 | A read without bytes ends the connection and changes nothing that was handed on |
| `EndToEnd.WritesAreRead` | fog_rs/fogrs-core/src/network/kcp.rs:180-221 | The writes of a packet are read as header with zero byte, payload in pieces, name record in pieces |
| `EndToEnd.SafeReads` | fog_rs/fogrs-core/src/network/kcp.rs:95-221 | Those reads are safe if and only if every packet is one that gets through |
| `EndToEnd.PingIsACut` | fog_rs/fogrs-core/src/network/kcp.rs:105-106 | A text has a piece equal to ping exactly when its length leaves 4 modulo 65535 and it ends in ping |
| `EndToEnd.HeaderFits` | fog_rs/fogrs-common/src/packet_structs.rs:124-131 | Every header's text with its zero byte fits into one read |
| `KcpSession.Session.constructor` | fog_rs/fogrs-kcp/src/session.rs:57-71 | A new session is open |
| `KcpSession.Session.Close` | fog_rs/fogrs-kcp/src/session.rs:251-254 | The closed flag is set |
| `KcpSession.Session.Give` | fog_rs/fogrs-kcp/src/session.rs:256-261 | The packet is last in the session's inbox |
| `KcpSession.Session.Take` | fog_rs/fogrs-kcp/src/session.rs:140-157 | A packet is rejected exactly when its number differs and none is awaited; given only its own packets a session rejects none and keeps its number |
| `KcpSession.SessionManager.constructor` | fog_rs/fogrs-kcp/src/session.rs:295-300 | No sessions |
| `KcpSession.SessionManager.ClosePeer` | fog_rs/fogrs-kcp/src/session.rs:307-309 | The entry goes and its session is closed |
| `KcpSession.SessionManager.GetOrCreate` | fog_rs/fogrs-kcp/src/session.rs:311-357 | A new session exactly for a new peer or a first packet with another number, the replaced one closed, no other touched |
| `KcpSession.Listener.OnCloseNotice` | fog_rs/fogrs-kcp/src/listener.rs:54-58 | The entry of the peer's address goes, whoever's it is |
| `KcpSession.Listener.Route` | fog_rs/fogrs-kcp/src/listener.rs:89-118 | The entry of the peer, or a new one that the acceptor took, or the reason why there is none |
| `KcpSession.Listener.OnPacket` | fog_rs/fogrs-kcp/src/listener.rs:66-127 | Every open session stays the map entry of its peer, and a packet is given exactly to the entry of its peer and only with that session's number |
| `KcpSession.Listener.OnStreamDropped` | fog_rs/fogrs-kcp/src/stream.rs:27-31 | A session closed where it is breaks nothing |
| `KcpSession.Listener.OnSessionTurn` | fog_rs/fogrs-kcp/src/session.rs:141-157 | No packet that the loop gave to a session is rejected by its socket |
| `KcpSession.OneOpenSession` | fog_rs/fogrs-kcp/src/session.rs:277-281 | A peer has at most one open session |
| `ServiceRequestManager.ProcessedMeansAnswered` | fog_rs/fogrs-core/src/service_request_manager.rs:86-118 | In every run an identifier counts as processed if and only if an answer with it was handled: a response, or a forwarded packet that somebody took |
| `ServiceRequestManager.FirstAnswerWins` | fog_rs/fogrs-core/src/service_request_manager.rs:86-264 | After the first answer no request, response or forwarded packet with its identifier goes out |
| `ServiceRequestManager.OneAnswerGoesOut` | fog_rs/fogrs-core/src/service_request_manager.rs:86-264 | At most one response or forwarded packet per identifier goes out in a run |
| `ServiceRequestManager.TableIsHistory` | fog_rs/fogrs-core/src/service_request_manager.rs:275-334 | A name's receivers are exactly its accepted updates in order |
| `ServiceRequestManager.AddedAreFit` | fog_rs/fogrs-core/src/service_request_manager.rs:279-329 | Whatever was added runs, receives, and passed the binding table |
| `ServiceRequestManager.RecipientsFollowHistory` | fog_rs/fogrs-core/src/service_request_manager.rs:93-118 | A packet's recipients are a filter over the history of updates, or none after an answer |
| `ServiceRequestManager.PacketsGoWhereOffered` | fog_rs/fogrs-core/src/service_request_manager.rs:84-300 | In every run, from the events alone: a packet goes to the channels that accepted updates offered to its name and kind, in order, unless its identifier was answered, it is a response without request, or the handler has stopped; a request without identifier goes only to the first |
| `ServiceRequestManager.WhoGetsIt` | fog_rs/fogrs-core/src/service_request_manager.rs:84-300 | A forwarded packet goes exactly to added RECEIVERs, a response to RESPONSERECEIVERs, a request to REQUESTRECEIVERs over ros or the default interface, unless its identifier was answered before |
| `ServiceRequestManager.TakersTake` | fog_rs/fogrs-core/src/service_request_manager.rs:95-113 | The filter takes exactly the fitting connections |
| `ServiceRequestManager.RequestsStayOnOneInterface` | fog_rs/fogrs-core/src/service_request_manager.rs:141-163 | A request only goes over ros or the default interface |
| `ServiceRequestManager.RequestedMeansAsked` | fog_rs/fogrs-core/src/service_request_manager.rs:122-129 | A name counts as requested if and only if a request for it was handled that was no duplicate |
| `ServiceRequestManager.WhenItPanics` | fog_rs/fogrs-core/src/service_request_manager.rs:233-264 | Exactly which events make the handler panic, in terms of what came before |
| `ServiceRequestManager.RunsWhileHarmless` | fog_rs/fogrs-core/src/service_request_manager.rs:80-300 | The handler runs as long as every event was harmless |
| `ServiceRequestManager.Handler.constructor` | fog_rs/fogrs-core/src/service_request_manager.rs:55-71 | Empty tables |
| `ServiceRequestManager.Handler.OnUpdate` | fog_rs/fogrs-core/src/service_request_manager.rs:275-339 | An update is a step of the specification |
| `ServiceRequestManager.Handler.OnForward` | fog_rs/fogrs-core/src/service_request_manager.rs:86-118 | The loop sends to the recipients and marks the identifier if there is one |
| `ServiceRequestManager.Handler.OfferRequest` | fog_rs/fogrs-core/src/service_request_manager.rs:141-163 | The loop sends to the takers and stops at the first without identifier |
| `ServiceRequestManager.Handler.OnRequest` | fog_rs/fogrs-core/src/service_request_manager.rs:119-232 | A request is a step of the specification |
| `ServiceRequestManager.Handler.OnResponse` | fog_rs/fogrs-core/src/service_request_manager.rs:233-264 | A response is a step of the specification |
| `Rib.TableIsHistory` | fog_rs/fogrs-core/src/rib.rs:22-30 | A name's records are its updates and news in order |
| `Rib.KnownNameGetsItsHistory` | fog_rs/fogrs-core/src/rib.rs:63-80 | A query of a known name is answered by the full history of the name in order |
| `Rib.UnknownNameReplies` | fog_rs/fogrs-core/src/rib.rs:75-98 | A query for an unknown name is answered by one EMPTY record without details the first time, and by nothing after that |
| `Rib.OthersAreSilent` | fog_rs/fogrs-core/src/rib.rs:61-138 | Records that are no query and no news are answered by nothing |
| `Rib.PendingInOrder` | fog_rs/fogrs-core/src/rib.rs:75-138 | Those who wait stand in the order in which they first asked in vain, until the first news |
| `Rib.NewsGoInOrder` | fog_rs/fogrs-core/src/rib.rs:112-132 | The first news of a name go to those who asked in vain, in that order, with the news's details; later news to nobody |
| `Rib.PendingMeansAskedInVain` | fog_rs/fogrs-core/src/rib.rs:81-137 | In every run those pending for a name are exactly who asked before anything was told about it, until the first news |
| `Rib.NobodyWaitsTwice` | fog_rs/fogrs-core/src/rib.rs:84-90 | Pending lists have no duplicates |
| `Rib.OneEmptyEach` | fog_rs/fogrs-core/src/rib.rs:81-104 | EMPTY is sent exactly at an asker's first query of a name about which nothing was told, so once at most |
| `Rib.NewsAnswersTheWaiting` | fog_rs/fogrs-core/src/rib.rs:112-138 | The first news of a name answers each pending asker exactly once and leaves nobody pending; later news answer nobody |
| `Rib.NewsReachWhoAsked` | fog_rs/fogrs-core/src/rib.rs:61-138 | A query followed by news of its name is answered by then |
| `Rib.AnsweredExactlyWhen` | fog_rs/fogrs-core/src/rib.rs:61-138 | By any point of a run a query was answered if and only if its name was known when asked, news of it came since, or it was asked again when something had been told |
| `Rib.WhatAnswers` | fog_rs/fogrs-core/src/rib.rs:61-138 | Every INFO sent about a name comes of news of it or of a query for what is known |
| `Rib.UpdateLeavesThemWaiting` | fog_rs/fogrs-core/src/rib.rs:108-111 | An update leaves who asked before it unanswered |
| `Rib.RoutingInformationBase.Put` | fog_rs/fogrs-core/src/rib.rs:22-26 | The record is last among those of its name |
| `Rib.RoutingInformationBase.Get` | fog_rs/fogrs-core/src/rib.rs:28-30 | All records of a name, or none if it is unknown |
| `Rib.Handler.constructor` | fog_rs/fogrs-core/src/rib.rs:49-50 | Nothing is known and nobody waits |
| `Rib.Handler.OnQuery` | fog_rs/fogrs-core/src/rib.rs:61-107 | A query is a step of the specification and sends its replies |
| `Rib.Handler.OnUpdate` | fog_rs/fogrs-core/src/rib.rs:108-111 | An update is a step of the specification |
| `Rib.Handler.OnInfo` | fog_rs/fogrs-core/src/rib.rs:112-138 | News are a step of the specification and send their replies |
| `SwarmTopology.TreeHasTheNames` | sgc_launch/sgc_launch/sgc_swarm.py:411-423 | The tree has the configured names in order |
| `SwarmTopology.TreeHasTheEdges` | sgc_launch/sgc_launch/sgc_swarm.py:411-423 | The tree has exactly the edges of the configuration, from each key to what stands right below it, in order |
| `SwarmTopology.EdgesReachAddresses` | sgc_launch/sgc_launch/sgc_swarm.py:305-308 | Every machine but the root is the child of exactly one edge |
| `SwarmTopology.AboutIsInjective` | sgc_launch/sgc_launch/sgc_swarm.py:305-356 | A request tells its edge, role and type |
| `SwarmTopology.RequestsFollowEdges` | sgc_launch/sgc_launch/sgc_swarm.py:305-360 | The recursion sends a machine's requests edge by edge |
| `SwarmTopology.EachEndIsSetUpOnce` | sgc_launch/sgc_launch/sgc_swarm.py:305-360 | For every tree of distinct addresses each of the four requests about an edge is sent by exactly one machine and exactly once |
| `SwarmTopology.ConfigurationIsSetUp` | sgc_launch/sgc_launch/sgc_swarm.py:305-423 | The same from the configuration: a request about an edge goes out once, from the end it is meant for, if and only if the configuration has the edge |
| `SwarmTopology.EdgeRequests` | sgc_launch/sgc_launch/sgc_swarm.py:310-357 | The four requests about an edge, with their URLs |
| `SwarmTopology.NothingElseIsSent` | sgc_launch/sgc_launch/sgc_swarm.py:305-360 | No machine sends a request about an edge that it is not an end of |
| `SwarmTopology.SourcesMeetDestinations` | sgc_launch/sgc_launch/sgc_swarm.py:305-356 | Each source at one end is matched by a destination at the other with the same sender, receiver, service and connection type |
| `SwarmTopology.Machine.SetUpEdge` | sgc_launch/sgc_launch/sgc_swarm.py:306-356 | The four branches for one edge |
| `SwarmTopology.Machine.ConstructTree` | sgc_launch/sgc_launch/sgc_swarm.py:305-360 | The recursive walk sends exactly the machine's requests in order |
| `SwarmAssignment.AddAtMostOnce` | sgc_launch/sgc_launch/sgc_swarm.py:94-209 | In every run without upsetting events each topic is added once and then only paused and resumed, the running topics are those of the machine's state, and the paused ones are all others ever added |
| `SwarmAssignment.StepStaysGood` | sgc_launch/sgc_launch/sgc_swarm.py:94-209 | One event keeps that if and only if it does not assign the same state again nor an undefined one while the state has topics |
| `SwarmAssignment.ChangeStaysGood` | sgc_launch/sgc_launch/sgc_swarm.py:109-165 | A change to a defined state keeps it |
| `SwarmAssignment.SameStateAddsAgain` | sgc_launch/sgc_launch/sgc_node.py:98-102 | Assigning the same state again breaks it exactly when the state has topics |
| `SwarmAssignment.UndefinedStateStops` | sgc_launch/sgc_launch/sgc_swarm.py:116-132 | Assigning an undefined state breaks it exactly when the old state has topics |
| `SwarmAssignment.LaunchIsGood` | sgc_launch/sgc_launch/sgc_node.py:246-250 | The launch establishes it |
| `SwarmAssignment.LaunchedAndUpset` | sgc_launch/sgc_launch/sgc_node.py:98-102 | From a launch with one topic: the same state again adds it a second time, an undefined state deletes it and leaves the machine in its state |
| `SwarmAssignment.ChangeSucceeds` | sgc_launch/sgc_launch/sgc_swarm.py:100-209 | A machine takes on a state if and only if the state is defined and is its own or its own has a list of topics; otherwise it stays in its state |
| `SwarmAssignment.StepSucceeds` | sgc_launch/sgc_launch/sgc_node.py:98-124 | The same for a request or an update about any machine |
| `SwarmAssignment.UndefinedOwnState` | sgc_launch/sgc_launch/sgc_swarm.py:116 | The KeyError of a machine in a state that is not defined, which no run reaches |
| `SwarmAssignment.RunSucceeds` | sgc_launch/sgc_launch/sgc_node.py:98-124 | In every run each event succeeds if and only if that condition holds, and then assigns exactly the machine it names |
| `SwarmAssignment.StuckWithoutTopics` | sgc_launch/sgc_launch/sgc_swarm.py:116 | A machine in a state without a list of topics never leaves it |
| `SwarmAssignment.LeavesUnlessWithoutTopics` | sgc_launch/sgc_launch/sgc_swarm.py:109-131 | After any run some later events make a machine leave its state if and only if the state has a list of topics and another state is defined |
| `SwarmAssignment.LaunchedWithoutTopics` | sgc_launch/sgc_launch/sgc_swarm.py:116 | A launch in a state without topics: the request for the other, defined, state fails |
| `SwarmAssignment.Swarm.constructor` | sgc_launch/sgc_launch/sgc_swarm.py:58-71 | Nothing assigned, paused or sent |
| `SwarmAssignment.Swarm.Revoke` | sgc_launch/sgc_launch/sgc_swarm.py:116-129 | The loop deletes and pauses the topics in order |
| `SwarmAssignment.Swarm.Start` | sgc_launch/sgc_launch/sgc_swarm.py:133-165 | The loop resumes paused topics and adds the others |
| `SwarmAssignment.Swarm.ApplyAssignment` | sgc_launch/sgc_launch/sgc_swarm.py:94-209 | One entry of a new assignment is applied, or fails where the source raises, with what was done by then |
| `SwarmAssignment.Swarm.Launch` | sgc_launch/sgc_launch/sgc_node.py:246-250 | The launch applies the dictionary that was just read |
| `SwarmAssignment.Swarm.SgcAssignmentCallback` | sgc_launch/sgc_launch/sgc_node.py:98-110 | The service applies any assignment |
| `SwarmAssignment.Swarm.AssignmentUpdateCallback` | sgc_launch/sgc_launch/sgc_node.py:112-124 | An update is applied only if it is news |
| `TimeBoundAnalyzer.WindowIsSuffix` | sgc_launch/sgc_launch/time_bound_analyzer.py:70-79 | After any pushes the window is the end of the history, its length given in closed form |
| `TimeBoundAnalyzer.WindowLengthBounds` | sgc_launch/sgc_launch/time_bound_analyzer.py:78-79 | That length is at least 3401, or all of a shorter history, and at most 5400 |
| `TimeBoundAnalyzer.ScanFindsAll` | sgc_launch/sgc_launch/time_bound_analyzer.py:185-205 | With nondecreasing stamps the scan finds everything within the duration |
| `TimeBoundAnalyzer.WithinSeconds` | sgc_launch/sgc_launch/time_bound_analyzer.py:191-200 | A sample is within the duration exactly if its age in seconds is at most that |
| `TimeBoundAnalyzer.WindowScanIsHistoryFilter` | sgc_launch/sgc_launch/time_bound_analyzer.py:185-205 | The scan of the window gives exactly the in-duration measurements of the whole history, in order, if and only if there are no more of them than the window holds; at most 3401 always suffice |
| `TimeBoundAnalyzer.BurstIsNotHeld` | sgc_launch/sgc_launch/time_bound_analyzer.py:70-79 | More than 5400 samples of one stamp: all lie within any duration and the scan of the window misses some |
| `TimeBoundAnalyzer.SomethingToReport` | sgc_launch/sgc_launch/time_bound_analyzer.py:88-92 | The profile is skipped exactly when the duration is negative |
| `TimeBoundAnalyzer.Analyzer.constructor` | sgc_launch/sgc_launch/time_bound_analyzer.py:68 | No windows |
| `TimeBoundAnalyzer.Analyzer.LatencyTopicCallback` | sgc_launch/sgc_launch/time_bound_analyzer.py:70-79 | Appending and trimming in place keeps every machine's window that of its history |
| `TimeBoundAnalyzer.Analyzer.Measurements` | sgc_launch/sgc_launch/time_bound_analyzer.py:88-90 | What a profile is made from |
| `TimeBoundAnalyzer.GetLatestMeasurements` | sgc_launch/sgc_launch/time_bound_analyzer.py:185-205 | The backward loop and the reversal give the longest in-duration end of the data |

## Left out

- Sockets, STUN, interface binding, Redis, the HTTP API, ROS plumbing, subprocesses and logging: input and output without a core to prove.
- The KCP protocol and the tokio runtime: seen only through the values and guarantees that the adapter relies on. A datagram is one packet with one conversation number, and `set_conv` of client sessions is not modelled.
- The UDP transport and the deprecated network code: they repeat the framing.
- PacketStructs.DecodeIff: the decoder accepts exactly the compact text of a header; the source's parser also accepts whitespace, reordered members and the array form of the same header, which the writer never produces. The same holds of `PacketStructs.EncodeOfDecode`.
- ChunkIndependence.ChunkIndependence: that unsafe cuts lose packets depends on this stricter decoder, because the proof counts a header as the bytes of its compact text; a shorter text that happens to stand in the bytes after a loss counts as no header here. That safe cuts lose nothing does not depend on it. The same holds of `ChunkIndependence.FeedCredit`, `ChunkIndependence.RunFrom` and `ChunkIndependence.PacketsArrive`.
- PingPong.PingsDoNotMatter: pings and pongs are reads of their own; one that is read together with other bytes, or several pongs among unsafe cuts, is not covered.
- EndToEnd.PacketsGetThrough: assumes that a write becomes one message and that no ping or pong is among them. It is so because every configuration turns stream mode off (`fog_rs/fogrs-kcp/src/config.rs:89-139`), except that the first write is cut when the session has no conversation number yet; for any other messages `EndToEnd.PacketsCrossTheStream` holds. That the packets which do not get through are lost depends on the stricter decoder, and so does the only-if half of `EndToEnd.PacketsCrossTheStream`.
- Name records: carried as the bytes of their JSON text.
- Floating point: latencies, times and limits are real numbers, time stamps whole nanoseconds.
- The passing of time within one callback: all its readings of the clock are equal.
- The capacity of the broadcast channel: 100 as the source asks for; the library may round it up. No result depends on the number.
- The receiving loops of `routing_manager.rs` after the rendezvous: two candidate messages read at once from the signaling connection are not separated there and make the client panic; the model ends where the server has written them.
- Letter case outside ASCII: directions are folded letter by letter from A to Z.
- Topology and rendezvous: requests do not follow the topology tree in the source, because the rendezvous is keyed by name and direction and not by an edge's URLs; nothing is claimed about it.
- Close notices: they name a peer and not a session, so a late one removes its successor; `Listener.OnCloseNotice` says no more than the code does.
- SHA-256 names and certificates: the URLs of routing requests are equal when the hashed parts are; a machine's name is opaque.
- The request deduplication per interface in `service_request_manager.rs`: unreachable behind three `continue`s. So are connections that are paused: every connection in the table runs.
- ServiceRequestManager.WhenItPanics: the unwrap of `duration_since` at line 236 also fails when the system clock has run backwards since the request; the clock is not part of the model.
- Request latencies: only that a response needs an earlier request for its name.
- `PAUSE`, `RESUME`, `DELETE`, `MERGE`: the source only logs them.
- Services in `apply_assignment`: they are never paused, so nothing beyond adding them again happens; and topics missing from the configuration's list of topics, which would raise a `KeyError` between two topics.
- Routing requests for topics: the same walk as for services with one request for each end.
- `goodness_of_variance_fit` and the statistics of a profile: numerical libraries, and unused at run time.
- `gdp_name_to_string`, `string_to_gdp_name` and `GdpAction::try_from`: they are not inverses of each other.
- SchedulerRuns.SerialProfiling: assumes that get-best is not called during profiling, because it switches away from the machine being profiled.
- Rendezvous.HearsExactlyItsPeers: assumes that no queue overflowed and nothing expired before the log was copied; `Signaling.StreamIsDue` and `Signaling.Copies` say what arrives otherwise.
- SwarmAssignment.AddAtMostOnce: assumes that no state lists a topic twice.
