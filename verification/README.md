# A verified model of MsQuic's core

This project models the parts of MsQuic's core with the most state, concurrency and arithmetic, and
proves what they guarantee. `dafny verify dfyconfig.toml` checks all of it.

| files | what they model |
|---|---|
| `Ice.dfy`, `IceProof.dfy` | the ICE datapath extension of a binding: reserving, registering, committing, publishing, aborting, receiving, sending, selecting a path and tearing down, as an interleaving of atomic steps of any number of threads |
| `VarInt.dfy`, `TransportParams.dfy`, `TransportEncoder.dfy`, `CodecProof.dfy` | the transport parameter codec: the decoder's loop, the encoder's two passes into a buffer, and what the two mean together |
| `Pacing.dfy`, `RateLimit.dfy`, `Bbr.dfy` | BBR: its saturating arithmetic, the token bucket of the rate limit, the phases, the windows and the sending allowance |
| `Receive.dfy` | splitting a chain of received datagrams into subchains through tail pointers |
| `RecvQueue.dfy`, `RecvWakeup.dfy` | the receive queue of a connection: its linked packets under the lock, and every interleaving of datapath threads and the worker |
| `Timers.dfy`, `Closing.dfy` | the timers of a connection and their cached minimum, path validation, and the close state machine |
| `Ranges.dfy` | packet number ranges: binary search, insertion with merging and eviction, duplicate detection, the reordering scan |
| `Stateless.dfy` | the tracking of stateless operations, as an interleaving of atomic steps |
| `Prelude.dfy`, `ThreadSum.dfy` | machine words, options, and counting over threads |

Code that changes state is modelled by classes and methods with the same fields and loops, each proved
against a specification. Code that runs on several threads is a state machine whose steps are the lock
sections, atomic operations and callbacks; its results hold for every schedule of any number of threads.
Machine integers are bounded and wrap where C makes them wrap (`Wrap32`, `Wrap64`). What other code or
the environment decides is an input: the clock, allocation results, the random word of BBR, the outcome
of delivering a subchain, the maxima of BBR's two sliding windows, and the path validation timeout of a path.

## What the proofs found

- The error path of a listener start would leave the listener in the list if its ICE commit failed
  (`src/core/listener.c:414-430`), but no run takes it: the stateless registration was made before
  (`ListenerCommitSucceeds`), so the teardown always finds the list empty (`ListenersGone`).
- A release of a stateless operation looks at its context once more after it has given up the lock
  (`src/core/binding.c:1711`). `LookIsLate` states exactly when the context has been freed by then, and
  `LateLookHappens` gives a run in which it has.
- The encoder's debug assertion on the ack delays divides before it compares and so is weaker than the
  decoder's check: `AssertionTooWeak` gives parameters that pass the one and fail the other. A connection
  sends whole milliseconds (`src/core/connection.c:2410-2413`), for which the two agree (`AssertionExact`).
  `CodecRoundTrip` states the exact condition.
- Transport parameters with identifiers from 64 on may repeat, and then the last one counts
  (`RepeatedDelays`). With distinct identifiers order never matters (`OrderIrrelevant`).
- BBR takes the difference of its cycle times the wrong way round, so the gain cycle does not wait for a
  round trip (`CycleElapsedMeans`): at the plain gain any later ack moves it on (`CycleMovesEarly`).
- BBR's recovery window keeps its floor of four datagrams at a loss in recovery exactly when the sum of the lost
  bytes and the floor fits in 32 bits or the window was smaller than the loss (`OnDataLost`, `AfterLossFloor`).
  `LossFloorBroken` is a run that breaks it, which takes almost 2^32 bytes in flight.
- `ClosedSilently` is overwritten by every close, so a later close that is not silent takes it back, while the
  other closed flags never revert (`Closer.TryClose`). The loop that cancels all timers unrelated to the
  shutdown covers only the idle timer (`Closer.CancelOtherTimers`).

## Model

| member | source | states |
|---|---|---|
| IceProof.RunKeeps | src/core/binding.c:206-809 | every state that any schedule of any number of threads can reach satisfies the invariant of the ICE extension: references, tokens, rundown protections, path claims and teardown progress are each accounted for by exactly the threads that hold them |
| IceProof.StepKeeps | src/core/binding.c:206-809 | each atomic step of each procedure keeps that invariant, whatever the other threads are doing |
| IceProof.UpcallsOnlyWhileBound | src/core/binding.c:206-809 | in every run an application upcall runs only after Bound has returned and before Unbound starts, with the configuration given to Bound; Bound and Unbound are called at most once, in that order, and no assertion fails, including that of the commit on the stateless registration and those of the teardown on the references and the listener list |
| IceProof.ReferencesBalance | src/core/binding.c:658-1016 | in every run at most one first-install token or commit exists, an installed configuration is that of every listed listener, and the reference count is exactly what owners, started listeners and running calls hold; a finished call has given back what it took |
| IceProof.SelectionIsExclusive | src/core/binding.c:515-587 | with any number of racing selectors at most one is between the swap to INSTALLING and its outcome, INSTALLING is set exactly while one is, RELAY implies that the MTU cap was set on an exclusive client binding, and relay upcalls run only while RELAY is selected |
| IceProof.ChoiceIsFinal | src/core/binding.c:515-587 | once DIRECT or RELAY is published, no continuation of the run changes it |
| IceProof.ListenersGone | src/core/binding.c:206-217 | in every run, once the teardown has started, the listener list is empty and no listener holds a reference |
| IceProof.ListenerCommitSucceeds | src/core/listener.c:322-420 | in every run no thread aborts on behalf of a started listener, and a listener commits only when the stateless registration exists |
| IceProof.ReleaseKeeps | src/core/library.c:2643-2670 | giving a reference back keeps the invariant from any point of any procedure, and only the last release starts a teardown |
| IceProof.MoveReceive | src/core/binding.c:2352-2435 | the steps of a receive upcall keep the invariant: the flag is checked, protection acquired, and both rechecked |
| IceProof.MoveSend | src/core/binding.c:2596-2705 | the steps of a relayed send keep the invariant |
| IceProof.MoveClose | src/core/binding.c:206-232 | the start of the teardown keeps the invariant: no reference and no listener is left, and no new upcall can start |
| IceProof.MoveUnbind | src/core/binding.c:206-240 | swapping Bound away and calling Unbound keeps the invariant: no upcall can be running by then |
| VarInt.RoundTrip | src/inc/quic_var_int.h:48-151 | decoding an encoded integer gives the integer and its size back, whatever bytes follow |
| VarInt.DecodeExtends | src/inc/quic_var_int.h:106-151 | bytes after a complete integer do not change how it reads |
| VarInt.TagAnnounces | src/inc/quic_var_int.h:48-80 | the first byte of an encoding announces its length |
| TransportParams.ReadValue | src/core/crypto_tls.c:1318-1976 | the switch of the decoder, written id by id with its own limits, agrees with the table of parameters: it accepts a value exactly if it is in the range, length and sender role of the table and the version information can be allocated, and stores exactly the members of that parameter |
| TransportParams.ReadTlv | src/core/crypto_tls.c:1318-1360 | the head of a parameter is read in the code's order: id, repeated id, length, bounds |
| TransportParams.ReadNext | src/core/crypto_tls.c:1318-1976 | one turn of the loop succeeds exactly if the next parameter is complete, not a repeated low id, and accepted, and then moves past it and remembers it |
| TransportParams.DecodeTransportParameters | src/core/crypto_tls.c:1287-1996 | on every input the decoder succeeds exactly if all parameters are complete and accepted, with memory for the version information, no id below 64 repeats and the ack delays agree, and gives the parameters stored in order over the defaults; on failure it leaves the structure zeroed |
| TransportEncoder.RequiredLength | src/core/crypto_tls.c:742-912 | the size pass adds up to exactly the number of bytes that the encoding has |
| TransportEncoder.WriteParam | src/core/crypto_tls.c:118-133 | a parameter is appended at the cursor as id, length and value, and nothing before it changes |
| TransportEncoder.WriteAll | src/core/crypto_tls.c:942-1250 | the write pass puts exactly the parameters that are present, in the fixed order, after the header |
| TransportEncoder.EncodeTransportParameters | src/core/crypto_tls.c:721-1274 | the encoder fails exactly if the encoding exceeds 65535 bytes or memory is short; otherwise the buffer has exactly the computed size and holds exactly the encoding, so the length-mismatch branch is never taken |
| CodecProof.ParseConcat | src/core/crypto_tls.c:1318-1360 | complete inputs one after the other hold their parameters one after the other |
| CodecProof.ParseFlatten | src/core/crypto_tls.c:118-151 | what the encoder writes splits into exactly the parameters that were written |
| CodecProof.StoreAllIsMap | src/core/crypto_tls.c:1318-1976 | storing parameters with distinct ids one by one gives the structure described by the map from ids to values |
| CodecProof.OrderIrrelevant | src/core/crypto_tls.c:1318-1988 | permuting the parameters of any input with distinct ids changes neither success nor result |
| CodecProof.BlocksSwap | src/core/crypto_tls.c:1318-1988 | exchanging two adjacent blocks of bytes that each hold whole parameters, with distinct ids, changes neither success nor result, whatever bytes follow |
| CodecProof.UnknownIgnored | src/core/crypto_tls.c:1960-1976 | inserting unknown parameters after any whole parameters changes nothing, whatever bytes follow, unless it makes an id below 64 appear twice, in which case decoding fails |
| CodecProof.ReservedIgnored | src/core/crypto_tls.c:71-83 | the reserved identifiers 31 * N + 27 are all unknown to the decoder |
| CodecProof.RepeatedDelays | src/core/crypto_tls.c:1318-1360 | ids from 64 on may repeat, and the last value counts |
| CodecProof.AcceptsWritten | src/core/crypto_tls.c:942-1250 | the decoder accepts what the encoder writes for a parameter if and only if the value is in the range that section 18.2 of RFC 9000 and the extensions give and the sender may send it |
| CodecProof.CodecRoundTrip | src/core/crypto_tls.c:942-1996 | for every parameter set the encoder takes, decoding its output succeeds if and only if all values are in range, server-only ones come from a server and the delays fit, and then gives back the same flags and every flagged member with defaults elsewhere; a test parameter unknown to the decoder makes no difference |
| CodecProof.AssertionTooWeak | src/core/crypto_tls.c:867-876 | parameters that pass the encoder's debug assertion on the delays and that the decoder refuses |
| CodecProof.AssertionExact | src/core/crypto_tls.c:867-876 | with a minimum delay of whole milliseconds, as a connection sends it, the assertion is exactly the decoder's check |
| Pacing.MultiplyDivideExact | src/core/bbr.c:208-231 | the saturating product and quotient is the exact quotient, or the largest 64-bit value if that does not fit, for all operands and divisors up to 2^32 |
| Pacing.MultiplyDivideCeilExact | src/core/bbr.c:233-247 | the rounded-up form is exact in the same way |
| Pacing.BurstCapacityMeans | src/core/bbr.c:807-836 | the bucket holds at least one datagram and one round trip, or two milliseconds, at the maximum rate, and not a byte more than that needs |
| RateLimit.Limiter.Initialize | src/core/bbr.c:315-340 | setting the bucket up grants exactly one datagram if a maximum rate is configured, and turns it off otherwise |
| RateLimit.Limiter.Refill | src/core/bbr.c:867-911 | for every nonzero 64-bit rate and every elapsed time the refill is that of an ideal bucket in millionths of a byte, the minimum of the capacity and the credit plus rate times time, with no overflow on the way |
| RateLimit.Limiter.RefillPartly | src/core/bbr.c:890-910 | the timed part of the refill: filled exactly from the rounded-up time to fill on |
| RateLimit.Limiter.Update | src/core/bbr.c:927-951 | before every allowance the bucket is cleared, set up or refilled as the settings say, even when the congestion window blocks |
| RateLimit.Limiter.Spend | src/core/bbr.c:617-632 | sending takes the bytes out of the budget, down to zero |
| RateLimit.Limiter.OnPacingRateChanged | src/core/bbr.c:838-865 | a change of rate drops the remainder and caps the budget at the new capacity |
| RateLimit.StepOk | src/core/bbr.c:867-911 | every operation keeps the remainder below one byte and the budget in 32 bits |
| RateLimit.RefillsCompose | src/core/bbr.c:867-911 | waiting twice equals waiting once for the sum |
| RateLimit.RateChangeNeverAdds | src/core/bbr.c:838-865 | while the bucket is in use a change of rate never raises the credit |
| RateLimit.GateClears | src/core/bbr.c:1028-1034 | after the time in which the rate earns a datagram, rounded up, the budget holds a datagram |
| RateLimit.RunBalance | src/core/bbr.c:304-951 | over any run of any operations with any settings, what was paid for and what is left never exceeds what was there, what was earned by waiting and what set-ups granted |
| RateLimit.RateBound | src/core/bbr.c:617-911 | at a fixed maximum rate, with each send inside the budget it finds, the bytes sent never exceed the floor of the credit plus rate times time over a million, whatever the capacity does |
| Bbr.AfterLossFloor | src/core/bbr.c:1318-1347 | the recovery window after a loss is at least four datagrams if and only if the 32-bit sum does not wrap or the window was smaller than the loss |
| Bbr.LossFloorBroken | src/core/bbr.c:1291-1351 | a run of a controller, one send and two losses, after which the recovery window is below its floor |
| Bbr.CycleElapsedMeans | src/core/bbr.c:1224-1226 | the cycle test is true exactly for times after the start of the cycle, until the clock is within a round trip of wrapping |
| Bbr.Controller.CycleMovesEarly | src/core/bbr.c:1224-1244 | at the plain gain the cycle moves on at any later ack within the round trip |
| Bbr.Controller.constructor | src/core/bbr.c:1476-1552 | a new controller is in STARTUP with its invariant, and with windows of four datagrams or more if the initial window is |
| Bbr.Controller.WindowFloor | src/core/bbr.c:351-372 | the effective window of every phase allows four datagrams |
| Bbr.Controller.TransitToProbeBw | src/core/bbr.c:374-393 | PROBE_BW starts at a cycle index other than the draining one, with the gain of that index |
| Bbr.Controller.UpdateMinRtt | src/core/bbr.c:1180-1191 | the minimum round trip time is replaced by a smaller sample, or by any sample once it is 20 seconds old |
| Bbr.Controller.UpdateRecoveryWindow | src/core/bbr.c:670-695 | the window covers what is in flight and acknowledged, grows by what is acknowledged in the growth state, and never falls below four datagrams |
| Bbr.Controller.UpdateRecovery | src/core/bbr.c:1206-1220 | recovery ends exactly with an ack past its end that reports no loss, and grows from the next round trip on |
| Bbr.Controller.AdvanceCycle | src/core/bbr.c:1224-1244 | in PROBE_BW the gain is always that of the index, which moves by one or not at all |
| Bbr.Controller.CheckStartup | src/core/bbr.c:1246-1256 | a new round that the application does not limit steps the search: growth by a quarter restarts it, the third slow round ends it |
| Bbr.SearchKept | src/core/bbr.c:1246-1256 | the slow rounds counted are the last rounds, all without growth over the same earlier one, and the bottleneck is found only when there are three |
| Bbr.NoteSearched | src/core/bbr.c:1246-1256 | that relation between the search and the history is kept by every ack |
| Bbr.Controller.FoundAfterThreeSlowRounds | src/core/bbr.c:1246-1256 | in every state, a bottleneck that was found was found by three rounds in a row since the last reset, none limited by the application, without growth by a quarter over the round before them |
| Bbr.Controller.HandleAckInProbeRtt | src/core/bbr.c:697-745 | PROBE_RTT is left exactly when its end is reached and a round trip was seen since it was set, and every exit so far is justified by earlier acks of the same stay |
| Bbr.Controller.UpdateCongestionWindow | src/core/bbr.c:1112-1153 | outside PROBE_RTT the window keeps its floor of four datagrams and grows by no more than was acknowledged; once the bottleneck is found it follows the target and the ack height, no higher and as soon as it may; before, it does not shrink, and below the target it grows by all that was acknowledged |
| Bbr.Controller.UpdatePhase | src/core/bbr.c:1224-1272 | the phases follow one another as BBR prescribes, and PROBE_RTT is entered exactly when the round trip sample has expired and the connection is not leaving quiescence |
| Bbr.Controller.OnDataAcknowledged | src/core/bbr.c:1155-1289 | every ack keeps the phase invariant (STARTUP means not found, DRAIN and PROBE_BW found, the gain of PROBE_BW is the table entry of its index, recovery has an end), the search invariant and the floors of the windows, and every exit from PROBE_RTT in the whole history comes 200 ms or more after an ack of the same stay with little in flight, with a new round trip in between |
| Bbr.Controller.OnDataSent | src/core/bbr.c:605-651 | sending keeps the invariants, adds to the bytes in flight and takes from the bucket |
| Bbr.Controller.OnDataInvalidated | src/core/bbr.c:653-668 | invalidated bytes leave the bytes in flight and nothing else changes |
| Bbr.Controller.OnDataLost | src/core/bbr.c:1291-1351 | a loss enters or stays in recovery with its end set and keeps the invariant; the recovery window keeps its floor if and only if the loss is persistent or starts recovery, the 32-bit sum does not wrap, or the window was smaller than the loss |
| Bbr.Controller.Reset | src/core/bbr.c:1382-1452 | a reset returns to STARTUP with the invariant, restores the floors, and grants one datagram to the bucket |
| Bbr.Controller.PacedAllowance | src/core/bbr.c:968-1018 | the paced allowance stays within the window even where the 64-bit product wraps, exceeds a quarter of it only for the minimum rate, and is never below the minimum rate unless the window is |
| Bbr.Controller.GetSendAllowance | src/core/bbr.c:913-1040 | the allowance never exceeds what the window leaves nor, with a maximum rate, the budget; it is zero without a datagram in the budget, and the whole rest of the window when pacing is not possible |
| Receive.RunsAreMaximal | src/core/binding.c:2453-2473 | the runs are the accepted datagrams in order, each run has one connection ID, and neighbouring runs have different ones |
| Receive.ExclusiveIsOneRun | src/core/binding.c:2453-2459 | on an exclusive binding all accepted datagrams form one run |
| Receive.HandshakeFirstPermutes | src/core/binding.c:2475-2498 | putting handshake packets first loses and repeats nothing |
| Receive.HeadCid | src/core/binding.c:2459-2462 | whichever packet heads a subchain has the connection ID of the whole run, so comparing with the head is enough |
| Receive.SubChain.PlaceData | src/core/binding.c:2485-2487 | a packet that is not a handshake packet is linked in at the end |
| Receive.SubChain.PlaceHandshake | src/core/binding.c:2488-2498 | a handshake packet is linked in after the handshake packets and before all others, and both tails stay right |
| Receive.SubChain.Insert | src/core/binding.c:2483-2498 | the subchain stays a chain of its packets, handshake packets first and each class in order of arrival, with true length and bytes |
| Receive.Chain.Append | src/core/binding.c:2443-2444 | a chain is appended through the tail pointer |
| Receive.Flush | src/core/binding.c:2463-2471 | a subchain is offered with its true length and bytes, and goes to the release chain if it is refused |
| Receive.StartRun | src/core/binding.c:2459-2473 | the subchain is delivered exactly when the binding is shared and the next packet has another connection ID |
| Receive.ReceiveChain | src/core/binding.c:2257-2518 | for every chain the groups offered are the maximal runs of accepted datagrams, each with handshake packets first in a stable order, and every datagram ends in exactly one of the released chain, a group taken over and a stateless operation; the totals are those of the datagrams as they arrived, while each group is offered with the bytes left after a relay header is taken off |
| RecvQueue.Queue.Enqueue | src/core/connection.c:3311-3378 | packets are appended in order with count, bytes and tail kept true, or refused at the limit; an operation is wanted exactly when the queue was empty |
| RecvQueue.Queue.Flush | src/core/connection.c:6047-6087 | the oldest packets, at most a hundred, are cut off in order with their bytes, and all were flushed exactly if the queue is empty then |
| RecvWakeup.RunInv | src/core/connection.c:3343-3378 | the invariant of packets and operations holds after every schedule, with shutdown completing at any point, inside a flush too |
| RecvWakeup.NoLostWakeup | src/core/connection.c:8353-8365 | under any interleaving there is never more than one FLUSH_RECV operation queued, about to be queued or in the worker's hands, and until shutdown completes, allocation succeeding, there is one exactly when packets are queued |
| RecvWakeup.FirstInFirstOut | src/core/connection.c:6057-6087 | packets leave in the order in which they were accepted, none lost or repeated |
| RecvWakeup.WorkerNeverFlushesNothing | src/core/connection.c:8353-8365 | the worker never holds an operation for an empty queue |
| Timers.ConnTimers.Earliest | src/core/connection.c:1201-1214 | the earliest time is the minimum over all timers |
| Timers.ConnTimers.Set | src/core/connection.c:1216-1240 | setting a timer changes it alone, and the cached minimum and the timer wheel stay right |
| Timers.ConnTimers.Cancel | src/core/connection.c:1242-1277 | cancelling does the same |
| Timers.ConnTimers.Expired | src/core/connection.c:1279-1347 | exactly the timers due are cleared and queued in order or flushed at once, and the minimum found on the way is the minimum over all timers |
| Timers.DueOnce | src/core/connection.c:1293-1330 | the operation of a due timer is queued exactly once, and of no other |
| Timers.NotDueAgain | src/core/connection.c:1293-1330 | a timer that has fired is not due again at any later time until it is set, whatever other timers do |
| Timers.Connection.Remove | src/core/path.c:48-136 | the last path stays and the connection closes silently; otherwise exactly the given path is removed, and if it was the active one a validated path, if any, takes its place |
| Timers.Connection.UpdateTimer | src/core/connection.c:6346-6381 | the path validation timer stands at the earliest deadline of a validation in progress, or now if that is past, and is cancelled if there is none |
| Timers.Connection.RemoveTimedOut | src/core/connection.c:6383-6427 | exactly the paths that timed out are removed; if that is all of them, one stays, no longer under validation, and the connection closes |
| Timers.Connection.ProcessPathValidation | src/core/connection.c:6383-6433 | no path that timed out is left, and the timer stands at the earliest remaining deadline |
| Closing.Closer.OnShutdownComplete | src/core/connection.c:1381-1452 | completion happens once and is indicated once, and only to an external owner |
| Closing.Closer.TryClose | src/core/connection.c:1476-1722 | a close never takes back a closed side, sets the reason only if it is the first, overwrites the silent flag, arms the shutdown timer or makes completion pending, and cancels the idle timer alone |
| Closing.Closer.EnterPeriod | src/core/connection.c:1530-1625 | which closes arm the shutdown timer, and which count as the first |
| Closing.Closer.OnTimersExpired | src/core/connection.c:1279-1347 | the expiry of the shutdown timer becomes an operation, or is lost if none can be allocated |
| Closing.Closer.OnShutdownTimer | src/core/connection.c:1724-1741 | the operation of the shutdown timer closes the remote side and makes completion pending |
| Closing.Closer.EndDrain | src/core/connection.c:8436-8438 | completion that is pending happens at the end of a drain |
| Closing.Closer.CloseHandle | src/core/connection.c:473-499 | closing the handle always completes the shutdown |
| Closing.Run | src/core/connection.c:1381-1741 | over any run of closes, timers, drains and handle closes: closed sides stay closed, the reason is that of the first close, completion is indicated at most once, and a closed connection always has completion done, pending, or announced by the armed timer or its queued operation, allocation succeeding |
| Ranges.Search | src/core/range.h:157-201 | the binary search finds an overlapping subrange, or the place between those below and those above the key |
| Ranges.Locate | src/core/range.c:259-318 | the search for an insertion ends at the first subrange that does not end, with a gap, before the new values |
| Ranges.MergedMeans | src/core/range.c:320-377 | replacing the touched subranges by one that covers them and the new values is set union, and keeps the subranges sorted and separated |
| Ranges.EvictionMeans | src/core/range.c:133-151 | dropping the lowest subrange removes exactly its values |
| Ranges.Range.AddRange | src/core/range.c:247-381 | adding a range is set union, or union without the lowest subrange when the array is full, and the update flag says exactly whether a value was new |
| Ranges.Tracker.AddPacketNumber | src/core/ack_tracker.c:86-97 | over any sequence of calls, a packet number is reported as a duplicate exactly if it is tracked or there is no room for it; one accepted before is accepted again only if it lies below what eviction has forgotten and is no longer tracked |
| Ranges.DidHitReorderingThreshold | src/core/ack_tracker.c:99-164 | for every set of ranges and positive threshold the scan returns true exactly if some missing packet number is not below the largest reported one and lies the threshold or more below the largest received |
| Stateless.AgeTracks | src/core/binding.c:1250-1280 | aging contexts out keeps list, table and count in agreement |
| Stateless.AgeMeans | src/core/binding.c:1247-1280 | aging drops exactly the contexts at the front of the list that are old, up to the first that is not |
| Stateless.CreateBounded | src/core/binding.c:1282-1338 | creating a context never exceeds the configured number of operations, and needs a live binding |
| Stateless.AddKeeps | src/core/binding.c:1312-1338 | a new context enters list, table and count together, with an address that no tracked context has, and exactly one thread holds its operation |
| Stateless.LockKeeps | src/core/binding.c:1692-1718 | releasing an operation processes its context exactly once and takes over the duty to free it exactly if it has expired |
| Stateless.TeardownFindsProcessed | src/core/binding.c:246-261 | every context that the teardown finds has been processed, as it asserts |
| Stateless.StepKeeps | src/core/binding.c:1229-1390 | every step of every thread keeps the accounts of contexts, operations and references |
| Stateless.TrackingHolds | src/core/binding.c:1229-1718 | in every run list, table and count agree, tracked contexts have different addresses, and no context is freed twice, or while it is tracked or unprocessed |
| Stateless.AllFreedInTheEnd | src/core/binding.c:246-261 | when the binding is torn down and all threads are idle, every context has been freed exactly once |
| Stateless.LookIsLate | src/core/binding.c:1692-1718 | in every run, when a release looks at its context after the lock, the context has been freed exactly if it has expired since the lock was taken |
| Stateless.LateLookHappens | src/core/binding.c:1692-1718 | a run of two threads in which a create ages the context out between the lock and the look |

## Left out

- TLS, packet protection, key derivation, retry tokens: calls into other libraries.
- Sockets, route resolution, worker scheduling, the timer wheel beyond the time it was last told.
- The ICE upcalls that post operations and send control messages, which follow the pattern of the relayed send.
- The order of the listener list and the choice of a listener by address and ALPN.
- TLS record framing and the reading of the client hello.
- BBR's bandwidth and ack height samples, sliding windows, exemptions, application-limited marking and effective pacing rate: the two maxima are inputs of each ack.
- The congestion control reset and MTU flags that come with promoting a path.
- Growing and shrinking of range arrays, removal of low values, and ack frame encoding.
- Connection IDs: issuing, retiring and hashing them.
- Deferred packets, version upgrade on the server, streams, loss detection and send scheduling.
- Parameter get and set, statistics, tracing.
- Closing.Closer.TryClose: assumes that the end of the closing period is not the largest 64-bit time, which stands for a timer that is not set.
