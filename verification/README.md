# ESB link engine: verification model

An Enhanced ShockBurst (ESB) driver for nRF chips moves packets between two kinds of
nodes. A PTX sends a packet, waits for an ACK, and repeats; a PRX listens, filters
repeats, answers, and may put a payload of its own into the ACK. Both work on one pool
of packet buffers that the radio reads and writes by DMA. Above them, timeslot
schedulers share the radio with Bluetooth, and a small transport carries keyboard
snapshots between the two halves of a keyboard.

This project models that engine in Dafny and proves what it promises. It is organised
by the driver's own components. Each `...Model.dfy` file holds a component as values and
functions together with its theorems; the file beside it holds the same component in
place, as a class whose methods are proved against those functions.

| files | component | source |
|---|---|---|
| `PoolModel`, `PacketPool`, `PoolRuns` | packet buffers and their owners | `src/payload.rs` |
| `TimerModel`, `Timer` | the timer with its two compares | `src/timer.rs` |
| `PtxModel`, `Ptx`, `Drain`, `Retransmit` | the sending machine | `src/state_machine.rs` |
| `PrxModel`, `Radio`, `Prx` | the receiving machine and its duplicate filter | `src/state_machine.rs`, `src/radio.rs` |
| `SuspendModel`, `Suspend`, `ParkedSuspend`, `PrxSuspend` | the drivers and their asynchronous suspension | `src/isr.rs` |
| `AppModel`, `Sends`, `Acceptance`, `LinkModel`, `LinkInv`, `LinkSteps`, `LinkFrames`, `Delivery`, `LinkSends`, `Crosstalk` | one PTX, a lossy channel and one PRX together | `src/state_machine.rs`, `src/radio.rs`, `src/isr.rs` |
| `TimingModel`, `TrackerModel`, `LinkTiming` | waiting for the receiver's window | `src/mpsl_schedule.rs` |
| `PrxScheduleModel`, `PrxScheduler` | chained, paced and extended receive windows | `src/mpsl_timeslot.rs`, `src/mpsl_profile.rs` |
| `PhaseLockModel`, `PhaseLock` | phase lock and pipe rotation of the sender | `src/mpsl_timeslot.rs`, `src/mpsl_common.rs` |
| `CodecModel`, `DedupModel`, `Transport` | wire formats, bindings, sequence numbers | `src/transport.rs`, `src/mpsl_common.rs`, `src/mpsl_schedule.rs` |
| `SnapshotLink`, `EventRing`, `SnapshotShown`, `SnapshotCollision` | snapshots and transport ACKs end to end | `boards/elytra/src/main.rs`, `boards/elytra/src/bin/left_central.rs`, `src/mpsl_timeslot.rs` |

## Main results

- **Link.** `LinkInvariant.LinkInv` holds in every reachable state of a PTX, a channel that
  may lose or corrupt any packet or ACK, and a PRX (`LinkFrames.ReachedInv`). From it:
  every packet the PRX application gets is a send of the PTX application with its pipe, flag
  and payload, no send arrives twice, and packets arrive in the order they were dequeued
  (`LinkSends.ArrivesAsAsked`); an acknowledged
  packet reached it if and only if the filter did not take it for a repeat of the last
  accepted packet of its pipe; on one pipe, if no three consecutive packets go wholly
  unheard, exactly once. The driver has no promise without that condition:
  `Crosstalk.AckedButNeverDelivered` is a run over a perfect channel, with two pipes, in
  which an acknowledged packet never arrives, because the PID counts packets of all pipes
  and the filter remembers one packet per pipe.
- **Retransmission.** Every wait to retransmit ends, in every run, if and only if packets
  have a single attempt or the delay exceeds the ACK timeout by more than two ramp-ups plus
  the interrupt latency. `EsbConfig::validate` asks for 62 microseconds only; in between, one
  TIMER interrupt disarms both compares and the machine waits for ever
  (`Retransmit.RetransmitLiveness`, `ShortDelayStalls`, `StalledStays`).
- **Draining, suspending.** A measure bounds the events until the queue is empty;
  over every interleaving of the sender's suspend future with interrupts no wake-up is lost
  and `do_suspend` runs from Idle only. In every run from power-up the sender keeps its
  whole invariant if and only if no suspension found a packet parked for a resend; each one
  that did took a buffer out of use for good and put the PID one behind
  (`ParkedSuspend.ForgottenBuffers`), and a run gives two different packets the same PID.
  The receiver's future is not race-free. In every run its accepted packets are the
  completed ones, the one whose ACK is on the air, and one lost for every suspension or stop
  in TxAck (`PrxSuspend.AcceptedAreAccountedFor`); one interrupt of the listening
  machine between the last poll and the suspension loses a packet if and only if it brings a
  good, new frame that wants an ACK (`RaceExactly`); and a move leaves its waiting task
  unwoken on a quiet machine if and only if another task stops the machine while an ACK is
  on the air (`MoveKeepsInv`). Runs reach both.
- **Schedulers.** `bounded_wait` is the least open window in closed form, over any number of
  calls, and its loop ends exactly under a condition on the hint and the clock; after any
  events it falls back for each of its four reasons exactly when the events say so
  (`TimingModel.WaitAfterRun`). After a hint, slot n of a phase-locked sender is requested at
  the hinted distance and n - 1 periods (`PhaseLockModel.SlotsFollowHint`); a frame that funds
  n windows of a parked receiver gets exactly n
  (`PrxScheduleModel.FrameFundsWindows`); every slot timer
  fires before the granted end if and only if the last one does; the sender's rotation serves
  every pipe exactly once per round. `request_window` marks the session under a lock and calls
  MPSL outside it: MPSL never holds a request the session does not know of if and only if
  SESSION_IDLE never comes between the mark and the acceptance
  (`PrxScheduleModel.MarkAgreesExactly`), and a call is safe from that if and only if the
  SESSION_IDLE of the last END or refusal came before it (`CallIsSafeExactly`). In
  `RequestsTwice` it does not, and a second request is submitted, which MPSL refuses:
  the race that docs/radio-notification-self-trigger.md calls benign.
- **Transport.** The nested formats invert each other; accepting a stream of frames is
  removing consecutive repeats, device by device; a transport ACK implies that the left
  half's queue took a frame with that number, and the application then shows that
  snapshot, or one a multiple of 256 earlier, which takes two frames with the same PID and
  CRC (`SnapshotCollision.UntakenExitMeansCollision`).

## Assumptions

- One core: an interrupt is atomic with respect to the task, and a section with the RADIO
  interrupt masked is atomic with respect to it.
- A CRC is some function of address, header and payload; nothing about collisions is assumed.
- The channel has no memory: an ACK is heard only while its sender still waits for the
  packet it answers. The ACK starts a fixed ramp-up after that packet, long before a retransmission can.
- The end of an ACK is one event of the link: where the PTX hears it, the PRX interrupt that
  completes the acknowledged packet comes first. On two devices the PTX may act while that
  packet is still pending in the PRX.
- A RADIO interrupt taken in Tx or TxNoAck finds the DISABLED event, as the source asserts.
- MPSL refuses a request, if at all, before its slot, so nothing was sent when `send` fails.
- MPSL sends the signals that go with what it holds, and the outcome of an extension before
  the next TIMER0 signal. After an END, or a refusal that leaves the session without a
  request, it refuses requests until it has sent SESSION_IDLE, which it sends once.
- A section under the lock of the session state is atomic with respect to MPSL's signals, and
  one `request_window` runs at a time, as its exclusive borrow demands.
- Buffer contents are packets: RSSI, pipe, PID, NO_ACK and payload, the length being that
  of the payload. A DMA write changes PID, NO_ACK and payload only.

## Model

| member | source | states |
|---|---|---|
| `Delivery.AtMostOnceInOrder` | `src/state_machine.rs:906-1010` | In every run the packets queued to the PRX application are dequeued packets of the PTX, unchanged on the air, in strictly increasing dequeue order, so none twice. |
| `LinkSends.ArrivesAsAsked` | `src/isr.rs:297-322` | In every run each packet of the PRX application is a send of the PTX application, with the pipe, flag and payload of the call; no send arrives twice; packets arrive in dequeue order. |
| `LinkSends.SentAsAsked` | `src/state_machine.rs:520-548` | In every run each dequeued packet is a send of the application with its pipe, flag and payload, a different one for each. |
| `Sends.SendFillsBuffer` | `src/isr.rs:297-360` | A valid send with a free buffer claims one and fills it with exactly its pipe, flag and payload; nothing else changes. |
| `Sends.RefusedSend` | `src/isr.rs:298-308` | Any other send changes nothing; with a free buffer only invalid arguments are refused. |
| `Delivery.AckedDelivered` | `src/state_machine.rs:436-465` | In every run an acknowledged packet is queued to the PRX application if and only if the last packet accepted on its pipe before it differs in PID or CRC. |
| `Delivery.ExactlyOnce` | `src/state_machine.rs:906-982` | On one pipe, if of any three consecutive packets at least one was heard, every acknowledged packet is queued to the PRX application exactly once. |
| `Delivery.ExactlyOnceWithoutCollision` | `src/radio.rs:440-455` | On any number of pipes and with any loss, an acknowledged packet is delivered unless an earlier packet on its pipe, a multiple of four before it, has the same CRC. |
| `Delivery.MissingMeansCollision` | `src/radio.rs:440-455` | A missing acknowledged packet has an earlier accepted packet on its pipe whose number is congruent modulo 4 and whose CRC is equal. |
| `Delivery.ShadowNeedsThreeLost` | `src/radio.rs:440-455` | On one pipe, a packet the filter takes for a repeat follows at least three wholly unheard ones. |
| `Delivery.AckPayloadsArePipeSafe` | `src/state_machine.rs:1152-1173` | A payload put into an ACK was offered for the pipe of the packet it answers, which was accepted on that pipe; neither payload nor packet occurs in another such ACK. |
| `Delivery.AckPayloadsAtMostOnce` | `src/state_machine.rs:443-453` | The payloads the PTX completes are sent ACK payloads, each at most once, in the order they were sent, with their contents. |
| `Delivery.PidDiscipline` | `src/state_machine.rs:520-554` | In every run the PID is the number of finished packets modulo 4, and every transmission of the k-th dequeued packet carries PID k modulo 4 and the same contents. |
| `Delivery.RetryBudget` | `src/state_machine.rs:480-494` | A packet suffers at most max(1, count) failed ACK waits, a dropped one exactly that many, an acknowledged one fewer. |
| `Delivery.PtxBuffersHaveOneOwner` | `src/state_machine.rs:376-583` | In every run the PTX buffers in DMA are exactly the packet in flight and, in WaitAck, a different ACK buffer; all other buffers have one owner each. |
| `Delivery.PrxBuffersHaveOneOwner` | `src/state_machine.rs:883-1214` | In every run the PRX buffers in DMA are exactly its three indices, distinct: the receive index is set exactly in Receiver, the pending one exactly in TxAck, the ACK payload in TxAck only. |
| `LinkFrames.ReachedInv` | `src/state_machine.rs:376-1040` | Every reachable state of the link satisfies the link invariant. |
| `LinkFrames.StepInv` | `src/state_machine.rs:376-1040` | Every action of either side, of the applications and of the channel keeps the link invariant. |
| `LinkFrames.FrameEndsInv` | `src/state_machine.rs:894-984` | Handling a received frame, good or bad, new or repeated, keeps the link invariant. |
| `LinkFrames.FrameEndsShape` | `src/state_machine.rs:906-982` | A handled frame is accepted exactly when the filter does not know it; it is stored unchanged, and answered on its pipe unless it asks for no ACK, a new one with the lowest payload queued for the pipe if there is any. |
| `LinkFrames.AckEndsInv` | `src/state_machine.rs:986-1032` | The end of an ACK, heard, corrupted or lost, completes the pending packet and keeps the link invariant. |
| `LinkFrames.NewAck` | `src/state_machine.rs:1152-1165` | The newest ACK payload was not sent before, belongs to the pipe, and answers the newest accepted packet. |
| `LinkSteps.InterruptInv` | `src/state_machine.rs:376-507` | Every PTX interrupt whose events agree with what its radio holds keeps the link invariant. |
| `LinkSteps.TxEndsInv` | `src/state_machine.rs:412-434` | The end of a transmission keeps the link invariant: what the PRX receives of it is new to it. |
| `LinkSteps.ListeningInv` | `src/state_machine.rs:755-769` | Starting and stopping to listen keep the link invariant. |
| `LinkSteps.BadFrameInv` | `src/state_machine.rs:899-905` | A frame with a bad CRC changes nothing that was established. |
| `LinkInvariant.PtxCallsInv` | `src/isr.rs:297-364` | Sends and receives of the PTX application keep the link invariant at every step, an interrupt may come between any two. |
| `LinkInvariant.PrxCallsInv` | `src/isr.rs:826-849` | ACK payloads offered and packets taken by the PRX application keep the link invariant. |
| `LinkInvariant.SettleCarried` | `src/state_machine.rs:441-456` | A good ACK with a payload completes exactly the payload it was sent with; nothing else completes any. |
| `Acceptance.DuplicateMeans` | `src/radio.rs:440-445` | The filter calls a later transmission a repeat exactly when its packet was accepted already or is shadowed by the last acceptance on its pipe. |
| `Acceptance.AcceptHears` | `src/state_machine.rs:917-954` | Hearing one more transmission keeps the account of accepted packets, and one that is new was never accepted before. |
| `Acceptance.LastBelowIsGreatest` | `src/radio.rs:449-455` | No acceptance on a pipe below a bound is later than the one called its last, which is the one the filter remembers. |
| `Crosstalk.AckedButNeverDelivered` | `src/state_machine.rs:520-554` | A run with two pipes over a perfect channel: five packets are acknowledged at the first attempt and the fifth is never delivered. |
| `Crosstalk.RoundWorks` | `src/state_machine.rs:376-507` | From rest, a packet sent over a perfect channel is acknowledged at once and delivered exactly if the filter does not know its PID and CRC. |
| `PtxModel.HandleRadioEventInv` | `src/state_machine.rs:376-507` | Every interrupt, whatever its events, keeps buffer ownership, radio and state in step, PID, retry budget, fates, and the log of transmissions. |
| `PtxModel.SendNextInv` | `src/state_machine.rs:520-548` | Sending the next packet, or the parked one again, or going idle keeps the invariant. |
| `PtxModel.SendsWhatWasQueued` | `src/state_machine.rs:526-548` | With no packet in flight the lowest queued one goes out on its own pipe, RSSI byte, pipe, flag and payload as queued and only the PID set; it waits for an ACK unless it was queued without one. |
| `PtxModel.SendsNothingElse` | `src/state_machine.rs:526-531` | With nothing queued either, the machine goes idle and nothing else changes. |
| `PtxModel.InterruptTakes` | `src/state_machine.rs:376-507` | Whatever the interrupt, a packet it dequeues is the lowest one queued when it came, with only its PID set. |
| `PtxModel.OnAckOkInv` | `src/state_machine.rs:441-465` | A good ACK delivers or frees its buffer, frees the packet and keeps the invariant. |
| `PtxModel.OnAckFailedInv` | `src/state_machine.rs:467-498` | A bad ACK or a timeout frees the ACK buffer, counts one failure and drops the packet at the limit, keeping the invariant. |
| `PtxModel.OnTxEndInv` | `src/state_machine.rs:412-434` | The end of a transmission claims a buffer for the ACK or parks the packet, keeping the invariant. |
| `PtxModel.InterruptShape` | `src/state_machine.rs:376-507` | Histories only grow; a transmission starts exactly when the interrupt ends in Tx or TxNoAck; a packet is acknowledged only by a good ACK, and only a non-empty one completes a buffer. |
| `PtxModel.AckArrivesInv` | `src/state_machine.rs:418-423` | The radio writing the ACK buffer disturbs no other owner. |
| `PtxEngine.PtxStateMachine.constructor` | `src/state_machine.rs:172-200` | A new machine is idle with the delays of the configuration corrected by the ramp-up, saturating at 16 bits. |
| `PtxEngine.PtxStateMachine.Transmit` | `src/radio.rs:239-277` | Points the radio at the buffer on the active pipe; the transmission is logged with the number of its packet. |
| `PtxEngine.PtxStateMachine.GoIdle` | `src/state_machine.rs:511-514` | Idle, nothing else changes. |
| `PtxEngine.PtxStateMachine.SendNext` | `src/state_machine.rs:520-548` | In place what the model function does: the parked packet again, else the lowest queued one with the current PID and its own pipe, else Idle. |
| `PtxEngine.PtxStateMachine.Retransmit` | `src/state_machine.rs:557-567` | The same packet on the same pipe, or Idle without one. |
| `PtxEngine.PtxStateMachine.ReleaseTx` | `src/state_machine.rs:570-575` | Frees the packet in flight once. |
| `PtxEngine.PtxStateMachine.ReleaseAckRx` | `src/state_machine.rs:578-583` | Frees the ACK buffer once. |
| `PtxEngine.PtxStateMachine.AdvancePid` | `src/state_machine.rs:552-554` | The PID moves on modulo 4 and the packet has its fate. |
| `PtxEngine.PtxStateMachine.Proceed` | `src/state_machine.rs:459-463` | Next packet, or Idle when the next one is suppressed. |
| `PtxEngine.PtxStateMachine.OnTxEnd` | `src/state_machine.rs:412-434` | Waits for the ACK with both compares armed, or parks the packet when no buffer is free. |
| `PtxEngine.PtxStateMachine.OnAckOk` | `src/state_machine.rs:441-465` | Delivers or frees the ACK buffer, finishes the packet as acknowledged and moves on. |
| `PtxEngine.PtxStateMachine.OnAckFailed` | `src/state_machine.rs:467-498` | Disarms the ACK timeout only, counts the attempt, and drops the packet exactly at the limit. |
| `PtxEngine.PtxStateMachine.HandleRadioEvent` | `src/state_machine.rs:376-507` | The whole interrupt in place equals the model function, for every state and event. |
| `PtxEngine.PtxStateMachine.DoSuspend` | `src/state_machine.rs:605-640` | Stops radio and timer and clears both indices; buffers in flight are freed unless the machine was idle. |
| `Timers.EsbTimer.ArmRetransmit` | `src/timer.rs:118-128` | CC[0] counts from a cleared, running counter. |
| `Timers.EsbTimer.DisarmRetransmit` | `src/timer.rs:134-140` | Disarming CC[0] stops the counter both compares share. |
| `Timers.EsbTimer.ArmAckTimeout` | `src/timer.rs:161-172` | CC[1] counts from the captured counter value. |
| `Timers.EsbTimer.DisarmAckTimeout` | `src/timer.rs:178-183` | Disarming CC[1] leaves the counter running. |
| `Timers.EsbTimer.Stop` | `src/timer.rs:197-199` | Stops the counter and nothing else. |
| `Timers.EsbTimer.HandleTimerEvent` | `src/state_machine.rs:587-594` | One TIMER interrupt disarms every compare that fired. |
| `TimerModel.ComparesFireInTime` | `src/timer.rs:118-172` | From arming on, each compare has fired exactly if its time has passed. |
| `TimerModel.StoppedStands` | `src/timer.rs:134-199` | A stopped timer stands still; stopping raises and clears no interrupt, and disarming the retransmit compare silences it. |
| `Retransmit.RetransmitLiveness` | `src/state_machine.rs:187-192` | For a validated configuration every reachable wait to retransmit has its compare armed and counting, or its interrupt under way, if and only if there is a single attempt or the delay suffices. |
| `Retransmit.ShortDelayStalls` | `src/state_machine.rs:429-500` | A delay within ACK timeout plus latency has a run that ends waiting with the compare disarmed. |
| `Retransmit.StalledStays` | `src/state_machine.rs:587-595` | Nothing wakes a stalled machine: no passing of time, no interrupt, no further send. |
| `Retransmit.DelayBound` | `src/config.rs:290-297` | Without saturation and latency the delay suffices exactly when it exceeds the ACK timeout by more than two ramp-ups; the delay at that bound is accepted by validation and does not suffice. |
| `Retransmit.LiveRetransmits` | `src/state_machine.rs:501-505` | A live wait ends with the same packet on the air once its compare has passed and both interrupts ran. |
| `Retransmit.StepKeepsTimer` | `src/timer.rs:118-183` | With enough delay, every step keeps both compares of an ACK wait, and the one left of it, armed and counting. |
| `Retransmit.GivingUpLeavesTimerArmed` | `src/state_machine.rs:480-494` | The path that reports MaxAttempts leaves the retransmit compare exactly as it was. |
| `Retransmit.AckFailedTimer` | `src/state_machine.rs:467-500` | A failed wait disarms the ACK timeout and nothing else of the timer. |
| `Drain.Drains` | `src/state_machine.rs:390-507` | After as many effective events as the rank says, at most three times the limit plus four per packet, the machine is idle with nothing in flight and an empty queue. |
| `Drain.EventLowersRank` | `src/state_machine.rs:390-507` | Every effective radio or timer event lowers the rank, given a free buffer at the end of a transmission. |
| `Drain.GiveUpExactlyAtLimit` | `src/state_machine.rs:480-494` | MaxAttempts is reported by exactly the failed wait that uses up the budget, and then the packet is dropped. |
| `Drain.RankZero` | `src/state_machine.rs:520-548` | The rank is zero exactly when the machine is idle, owns no packet and nothing is queued. |
| `SuspendModel.SuspendIsRaceFree` | `src/isr.rs:451-493` | Over every interleaving do_suspend was called only in Idle, an idle machine never leaves a waiting task unwoken, and a task told it is ready finds the machine idle. |
| `SuspendModel.IdleIsStable` | `src/state_machine.rs:399-405` | With the request set, no interrupt takes the machine out of Idle. |
| `SuspendModel.MoveKeepsInv` | `src/isr.rs:240-261` | Every interrupt and every piece of the future keeps the protocol invariant. |
| `SuspendModel.IdleTaskAdvances` | `src/isr.rs:474-493` | Once the machine is idle, every piece of the future brings it closer to its end and no interrupt sets it back. |
| `SuspendModel.RequestedEventAdvances` | `src/state_machine.rs:376-507` | With the request set, every radio or timer event brings a busy machine closer to Idle. |
| `SuspendModel.SuspendConserves` | `src/state_machine.rs:605-640` | Suspending from Idle conserves the buffers, and likewise the numbering of packets, if and only if no packet is parked for a resend. |
| `SuspendModel.RaceFreeSinceStart` | `src/isr.rs:451-493` | In every run from power-up do_suspend was called only in Idle, and an idle machine leaves no waiting task unwoken. |
| `SuspendModel.SuspendExactly` | `src/state_machine.rs:605-640` | A suspension leaves radio and timer off and silent and nothing in flight; it frees the buffers in flight exactly if the machine was not idle; histories and PID stay. |
| `SuspendModel.RestoreExactly` | `src/state_machine.rs:643-655` | A restored driver is idle on the saved pipe, unmasked and without a request; the rest is as it was suspended. |
| `SuspendModel.DropsAreReported` | `src/isr.rs:240-251` | In every run max_attempts_reached answers exactly whether a packet was given up since the last time it was asked. |
| `SuspendModel.DriverIsTimed` | `src/isr.rs:240-272` | The interrupts of the driver, with its timer flag, are steps of the timed machine whose waits are proved to end. |
| `ParkedSuspend.ForgottenBuffers` | `src/state_machine.rs:605-640` | In every run from power-up a suspension that found a parked packet left its buffer in DMA for good, each a different one, and nothing else did; the PID is behind the packet number by one for each; ownership, and the whole invariant, hold if and only if there was none. |
| `ParkedSuspend.ParkedPacketRepeatsPid` | `src/state_machine.rs:424-428` | A run from power-up, with any two payloads on any pipes, in which the sender is idle with a parked packet, is suspended, and gives the next packet the same PID 0. |
| `ParkedSuspend.HandlerBeside` | `src/state_machine.rs:376-507` | Every interrupt keeps ownership and numbering beside buffers that nobody owns. |
| `PrxSuspend.NoLostWakeUp` | `src/isr.rs:892-940` | Over every interleaving in which no stop strands the task, one that waits on a machine without an ACK on the air has been woken. |
| `PrxSuspend.MoveKeepsInv` | `src/isr.rs:768-858` | Every interrupt, call and piece of the PRX future keeps request flag, mask and waker in step with the task, except exactly a stop by another task while an ACK is on the air and the task waits unwoken. |
| `PrxSuspend.StopStrandsTask` | `src/isr.rs:852-858` | A run from power-up in which stop makes the machine idle and leaves the waiting task unwoken. |
| `PrxSuspend.CalmSuspendsQuietly` | `src/isr.rs:871-940` | If no interrupt takes effect between the poll that found the machine quiet and the suspension, and no stop cuts an ACK short, both are only called while no ACK is on the air. |
| `PrxSuspend.CalmLosesNothing` | `src/isr.rs:871-940` | In such a run from power-up no accepted packet is lost. |
| `PrxSuspend.AcceptedAreAccountedFor` | `src/state_machine.rs:1190-1214` | In every run from power-up the accepted packets not lost are, in order, the completed ones and the one whose ACK is on the air, and as many are lost as do_suspend or stop was called in TxAck; every buffer has one owner. |
| `PrxSuspend.RaceExactly` | `src/isr.rs:920-940` | With one interrupt between that poll and the suspension, the filter remembers a packet that is never completed if and only if the frame is good, wants an ACK and is no repeat; its buffer is then free and its retransmission a repeat. The suspension is from an ACK state if and only if the frame is good and wants an ACK. |
| `PrxSuspend.SuspendLosesAcceptedPacket` | `src/isr.rs:892-940` | A whole run from power-up in which an accepted packet is lost to a suspension in this way. |
| `PrxSuspend.ReceiveConserves` | `src/state_machine.rs:906-982` | What a received frame adds to the completed and pending packets is exactly what was accepted. |
| `PrxSuspend.OtherConserves` | `src/state_machine.rs:986-1032` | The end of an ACK completes exactly the pending packet; starting to listen completes nothing. |
| `PtxDriver.EsbPtx.OnRadioInterrupt` | `src/isr.rs:240-261` | Takes the timer flag, runs the machine with the suppression of a pending suspend, latches MaxAttempts, and wakes the task if Idle was reached. |
| `PtxDriver.EsbPtx.OnTimerInterrupt` | `src/isr.rs:267-272` | Sets the flag, then clears the timer events. |
| `PtxDriver.EsbPtx.TrySuspend` | `src/isr.rs:430-442` | Suspends exactly from Idle, and only then keeps the interrupt masked. |
| `PtxDriver.EsbPtx.ReadMaxAttempts` | `src/isr.rs:411-413` | Reads and clears the flag. |
| `PtxDriver.EsbPtx.Poll` | `src/isr.rs:477-487` | Registers the waker before looking at the state. |
| `PtxDriver.EsbPtx.Request` | `src/isr.rs:104-121` | The guard sets the request, and clears it when dropped. |
| `PtxDriver.EsbPtx.Restore` | `src/isr.rs:500-507` | Back to Idle on the saved pipe, request cleared, interrupt unmasked. |
| `PoolRuns.PoolIsSafe` | `src/payload.rs:151-315` | Over any interleaving of an engine and an application every buffer has one owner, the channel always has room for a completed buffer, and packets are taken in completion order, none missing. |
| `PoolModel.ChannelHasRoom` | `src/payload.rs:282-287` | While a buffer is still in DMA the channel is not full, so the ignored try_send cannot fail. |
| `PoolModel.RxCompleteOwned` | `src/payload.rs:282-287` | Completing a buffer hands it to the channel, at its end, and to nobody else. |
| `PoolModel.ReceiveOwned` | `src/payload.rs:289-297` | The application takes the oldest completed packet that is still waiting. |
| `PoolModel.DiscardOwned` | `src/payload.rs:306-314` | Discarding empties the channel and frees exactly the buffers it held. |
| `PoolModel.AllocTxOwned` | `src/payload.rs:156-171` | Allocation gives the application a free buffer, or there is none. |
| `PoolModel.AllocDmaOwned` | `src/state_machine.rs:1251-1256` | Claiming for DMA gives the engine a free buffer, or there is none. |
| `PoolModel.DequeueOwned` | `src/payload.rs:188-191` | Dequeuing gives the engine a queued buffer, or none is queued. |
| `PoolModel.DequeueForOwned` | `src/payload.rs:198-210` | A pipe-filtered dequeue gives the engine the lowest buffer queued for that pipe, or none is queued for it. |
| `PoolModel.EnqueueOwned` | `src/payload.rs:174-186` | Queuing hands an allocated buffer from the application to the queue. |
| `PoolModel.ReleaseOwned` | `src/payload.rs:232-236` | Releasing frees a buffer of the engine, once. |
| `PoolModel.DropOwned` | `src/isr.rs:1158-1162` | Dropping a handle frees exactly its buffer. |
| `PoolModel.FirstFrom` | `src/payload.rs:188-191` | The lowest index in the wanted state, or none is in it. |
| `PoolModel.FirstQueuedFor` | `src/payload.rs:198-210` | The lowest index queued for the pipe, or none is. |
| `PacketPools.PacketPool.AllocTx` | `src/payload.rs:156-171` | The compare-exchange loop claims the lowest free buffer or finds none. |
| `PacketPools.PacketPool.TryDequeueTx` | `src/payload.rs:188-191` | Claims the lowest queued buffer. |
| `PacketPools.PacketPool.TryDequeueTxForPipe` | `src/payload.rs:198-210` | Claims the lowest buffer queued for the pipe; queued buffers of other pipes stay. |
| `PacketPools.PacketPool.EnqueueTx` | `src/payload.rs:174-186` | Queues an allocated buffer and leaves any other alone. |
| `PacketPools.PacketPool.Release` | `src/payload.rs:231-236` | Frees the buffer. |
| `PacketPools.PacketPool.RxComplete` | `src/payload.rs:281-287` | Marks the buffer received and appends it to the channel if there is room. |
| `PacketPools.PacketPool.TryReceiveRx` | `src/payload.rs:294-297` | Takes the oldest index. |
| `PacketPools.PacketPool.DiscardReceived` | `src/payload.rs:306-314` | The loop empties the channel, frees its buffers and counts them. |
| `PacketPools.PacketPool.AllocDma` | `src/state_machine.rs:1251-1256` | Claims the lowest free buffer for DMA. |
| `AppModel.AppStepOwned` | `src/isr.rs:297-322` | Every step of the application keeps single ownership, and touches no buffer in DMA or queued, nor the completion history. |
| `PrxModel.HandleRadioEventInv` | `src/state_machine.rs:883-1040` | Every interrupt keeps buffer ownership and the three indices in step with the state. |
| `PrxModel.StopReceivingInv` | `src/state_machine.rs:1190-1214` | Stopping in any state frees every buffer of the engine once. |
| `PrxModel.StartReceivingInv` | `src/state_machine.rs:755-769` | Starting claims one buffer, or stays idle when there is none. |
| `PrxModel.ReceiveShape` | `src/state_machine.rs:906-982` | A good frame is accepted exactly when it does not repeat the last accepted packet of its pipe; a new one is stored with RSSI and pipe, completed at once or pending its ACK, and remembered. The ACK goes out on the pipe of the frame: for a new one with the lowest payload queued for that pipe, if there is any, for a repeat with none. Without an ACK the machine listens again exactly if a buffer is free. |
| `PrxModel.AckSentShape` | `src/state_machine.rs:986-1032` | The end of an ACK completes the pending packet; the end of a repeated ACK completes nothing. The machine then listens exactly if a buffer is free, counting the one of the payload. |
| `PrxModel.OnAckSentInv` | `src/state_machine.rs:986-1010` | After an ACK the pending packet is the newest completed one and the payload buffer is free. |
| `PrxEngine.PrxStateMachine.StartReceiving` | `src/state_machine.rs:755-769` | Listens into a fresh buffer from Idle, reports when there is none, and does nothing elsewhere. |
| `PrxEngine.PrxStateMachine.Rearm` | `src/state_machine.rs:995-1008` | Back to listening on a fresh buffer, or Idle without one. |
| `PrxEngine.PrxStateMachine.Record` | `src/state_machine.rs:950-954` | Remembers PID and CRC of the pipe and writes RSSI and pipe into the buffer. |
| `PrxEngine.PrxStateMachine.OnNewPacket` | `src/state_machine.rs:950-981` | Completes a no-ACK packet and listens again, or answers and keeps it pending. |
| `PrxEngine.PrxStateMachine.OnDuplicate` | `src/state_machine.rs:919-947` | A repeat is not completed: its buffer is reused or freed, and an ACK without payload repeats the answer. |
| `PrxEngine.PrxStateMachine.SetupAckTx` | `src/state_machine.rs:1152-1165` | The lowest payload queued for this pipe, else the fallback. |
| `PrxEngine.PrxStateMachine.ReleaseAckTx` | `src/state_machine.rs:1168-1173` | Frees the ACK payload once. |
| `PrxEngine.PrxStateMachine.HandleRadioEvent` | `src/state_machine.rs:883-1040` | The whole interrupt in place equals the model function, for every state and event. |
| `PrxEngine.PrxStateMachine.StopReceiving` | `src/state_machine.rs:1190-1214` | Frees every buffer held and goes idle. |
| `Radios.DuplicateFilter.CheckDuplicate` | `src/radio.rs:440-445` | A repeat has a valid entry on its pipe with equal PID and CRC. |
| `Radios.DuplicateFilter.UpdateDetection` | `src/radio.rs:449-455` | Only the entry of the pipe changes, and a pipe out of range changes nothing. |
| `Radios.DuplicateFilter.Save` | `src/radio.rs:589-611` | The saved copies describe the filter: restoring them brings back the same View. |
| `Radios.DuplicateFilter.Restore` | `src/radio.rs:594-616` | Afterwards the filter is the one the given arrays describe, so with what Save returned it is the saved one. |
| `TimingModel.WaitHitsWindow` | `src/mpsl_schedule.rs:340-396` | A wait that does not fall back is at most the limit and ends inside the chosen window: not before its guard, and before it closes unless the window is empty. |
| `TimingModel.WaitExactly` | `src/mpsl_schedule.rs:340-396` | For every stored state: no fallback exactly if the configuration is valid, the mode not Degraded, a recent hint is stored and the wait within the limit, and then the wait is the distance to the window less the guard; each of the four reasons exactly under its condition; every fallback is counted. |
| `TimingModel.WaitAfterRun` | `src/mpsl_schedule.rs:340-396` | After any events with a clock that does not go back, in terms of the events alone: no fallback exactly if the misses since the last hint stay below the limit, that hint was neither reset nor expired, and its least open window is near enough; the wait is then exactly the distance to it less the guard; each reason exactly under its condition. |
| `TimingModel.TimingLaw` | `src/mpsl_schedule.rs:314-374` | Over any events the stored state is what the events amount to: mode, the last hint heard and its time, misses, lock count, fallback count, and the least window of that hint open at the latest time asked about. |
| `TimingModel.LeastOpenMeaning` | `src/mpsl_schedule.rs:376-378` | The closed form is a window of the hint, still open, and no earlier window is. |
| `TimingModel.LeastOpenComposes` | `src/mpsl_schedule.rs:376-378` | Catching up twice is catching up once, to the later time. |
| `TimingModel.CatchUpEndsExactly` | `src/mpsl_schedule.rs:376-378` | The catch-up loop ends if and only if it need not start, or the period is positive and the clock below its maximum. |
| `LinkTimings.LinkTiming.CatchUp` | `src/mpsl_schedule.rs:376-378` | Whenever it ends at all, the loop reaches the closed form, capped at 64 bits, for any stored hint and clock. |
| `LinkTimings.LinkTiming.BoundedWait` | `src/mpsl_schedule.rs:340-396` | The four fallbacks in order, else the capped wait for the chosen window; counters and mode as in the model; for any stored hint and clock with which it returns. |
| `LinkTimings.LinkTiming.ObserveHint` | `src/mpsl_schedule.rs:314-324` | Synced with the hint and its first window; a lock is counted only on a transition. |
| `LinkTimings.LinkTiming.ObserveMiss` | `src/mpsl_schedule.rs:326-331` | One more miss, Degraded at the limit. |
| `LinkTimings.LinkTiming.ResetToScan` | `src/mpsl_schedule.rs:333-338` | Unsynced without a hint. |
| `TrackerModel.WindowsAddUp` | `src/mpsl_schedule.rs:184-205` | Without regressions, the last window number plus one plus repeats is the first number plus valid hints plus missed windows. |
| `TrackerModel.CountersMean` | `src/mpsl_schedule.rs:184-217` | In every history each counter is the number of what it is named after: valid and bad hints, repeats, jumps, regressions, and the windows the jumps skipped. |
| `TrackerModel.LongestMissRun` | `src/mpsl_schedule.rs:207-217` | The maximal miss streak is the longest unbroken run of misses and bad hints. |
| `TrackerModel.CurrentMissRun` | `src/mpsl_schedule.rs:207-217` | The current streak is the run of misses the history ends with. |
| `LinkTimings.ScheduleTracker.ObserveHint` | `src/mpsl_schedule.rs:184-205` | Repeat, jump, regression or next window, each counted as such. |
| `LinkTimings.ScheduleTracker.ObserveMiss` | `src/mpsl_schedule.rs:212-217` | Streak and maximum move on. |
| `LinkTimings.ScheduleTracker.ObserveBadHint` | `src/mpsl_schedule.rs:207-210` | A bad hint is also a miss. |
| `PrxScheduleModel.SchedulingIsSound` | `src/mpsl_timeslot.rs:2061-2191` | In every run an idle session without a call in progress can ask for a window, a mark without a call stands for something MPSL holds, every NORMAL distance is at least a slot, no more fast windows are chained than the last frame funded or were left over, and extensions stay within their limit. |
| `PrxScheduleModel.FastWindowExactly` | `src/mpsl_timeslot.rs:2160-2191` | At the end of a slot of a parked session a window is requested exactly if the budget is positive and the distance acceptable, at that distance with the budget one less; otherwise the session ends and no budget is left. |
| `PrxScheduleModel.FrameFundsWindows` | `src/mpsl_timeslot.rs:2075-2170` | In every run of a parked session, after a frame that funded n windows at an acceptable distance and without another frame, reconfiguration, refusal or lost slot, the first n slots to end each chain a window at that distance, and the session ends only after exactly n. |
| `PrxScheduleModel.PacedWindowExactly` | `src/mpsl_timeslot.rs:2154-2159` | A chained session asks for another window at the end of every slot and keeps the fast budget. |
| `PrxScheduleModel.OpenedReports` | `src/mpsl_timeslot.rs:2147-2153` | In every run without a lost slot a report is raised after every so many slots, and one is ready exactly if the last one raised was not taken. |
| `PrxScheduleModel.RefusedExactly` | `src/mpsl_timeslot.rs:2727-2782` | A refused chained session asks for the earliest window at once and is done if that fails; a parked one only has nothing outstanding. |
| `PrxScheduleModel.EndingsExactly` | `src/mpsl_timeslot.rs:2784-2828` | Closing and overstaying end the session for good, any other signal only its slot. |
| `PrxScheduleModel.MarkExactly` | `src/mpsl_timeslot.rs:2949-2956` | A marked request is the earliest one; without a mark nothing changes. |
| `PrxScheduleModel.LastConfigured` | `src/mpsl_timeslot.rs:2061-2064` | Distance and refill in force are those of the last configuration, whatever happened since. |
| `PrxScheduleModel.MarkAgreesExactly` | `src/mpsl_timeslot.rs:2948-2974` | In every run MPSL never holds anything the session does not know of if and only if SESSION_IDLE never comes between the mark of a call and its acceptance; while that is so, request_window submits only when MPSL holds nothing. |
| `PrxScheduleModel.CallIsSafeExactly` | `src/mpsl_timeslot.rs:2948-2974` | Whatever signals come during a call, it keeps the agreement if and only if every END and every refusal without a new request had its SESSION_IDLE before the call. |
| `PrxScheduleModel.PatientRunsAgree` | `src/mpsl_timeslot.rs:2720-2725` | Runs in which every call that passes its guard starts after that SESSION_IDLE agree throughout. |
| `PrxScheduleModel.RequestsTwice` | `src/mpsl_timeslot.rs:2948-2974` | A run of every parked session without extensions: a call between END and SESSION_IDLE loses its mark, the next call submits a second request, MPSL refuses it, and START brings both together again. |
| `PrxScheduleModel.SignalAgrees` | `src/mpsl_timeslot.rs:2720-2791` | A signal or step of a call breaks the agreement exactly if it is the acceptance of a request whose mark SESSION_IDLE has cleared. |
| `PrxScheduleModel.PlannedGapsAddUp` | `src/mpsl_timeslot.rs:2123-2138` | After n paced requests with a gap every g, the distances sum to n minus n/g normal ones and n/g gaps. |
| `PrxScheduleModel.TimersInTimeExactlyWhenExtensionsFit` | `src/mpsl_timeslot.rs:2625-2691` | Every TIMER0 signal of every run comes before the granted end if and only if the last one of a fully extended slot does. |
| `PrxScheduleModel.ShortMatchFits` | `src/mpsl_timeslot.rs:2631-2635` | A match no later than the extension length always fits. |
| `PrxScheduleModel.SignalInv` | `src/mpsl_timeslot.rs:2625-2807` | Every legal signal and every step of a call keeps the account of marks and SESSION_IDLE signals, the extension account and the pacing account. |
| `PrxScheduleModel.FinalizeInv` | `src/mpsl_timeslot.rs:2144-2191` | However a slot ends, marks, extension account and pacing account stay right, and no distance below a slot is asked for. |
| `PrxScheduler.PrxInnerState.NextDistance` | `src/mpsl_timeslot.rs:2123-2138` | The gap exactly every so many windows, else the normal distance. |
| `PrxScheduler.PrxInnerState.ConsumeFastBudget` | `src/mpsl_timeslot.rs:2075-2083` | Takes one unit if there is one. |
| `PrxScheduler.PrxInnerState.Finalize` | `src/mpsl_timeslot.rs:2144-2191` | Report, then chain, fast window, or end. |
| `PrxScheduler.PrxInnerState.OnStart` | `src/mpsl_timeslot.rs:2342-2348` | A granted slot is outstanding and active. |
| `PrxScheduler.PrxInnerState.OnNewFrame` | `src/mpsl_timeslot.rs:2066-2071` | A new frame funds the fast windows again. |
| `PrxScheduler.PrxInnerState.OnTimer0` | `src/mpsl_timeslot.rs:2625-2659` | Asks for an extension while allowed, else ends the slot. |
| `PrxScheduler.PrxInnerState.OnExtended` | `src/mpsl_timeslot.rs:2661-2691` | Counts the extension and ends the slot at the limit. |
| `PrxScheduler.PrxInnerState.OnExtendFailed` | `src/mpsl_timeslot.rs:2693-2718` | Ends the slot. |
| `PrxScheduler.PrxInnerState.OnTakeReport` | `src/mpsl_timeslot.rs:3001-3016` | Takes the report that is ready, unless the session is done. |
| `PrxScheduler.PrxInnerState.OnSessionIdle` | `src/mpsl_timeslot.rs:2720-2725` | Nothing is outstanding. |
| `PrxScheduler.PrxInnerState.OnRefused` | `src/mpsl_timeslot.rs:2727-2782` | A parked session gives up, a chained one asks again and is done if that fails. |
| `PrxScheduler.PrxInnerState.OnSessionClosed` | `src/mpsl_timeslot.rs:2784-2791` | Done, nothing outstanding. |
| `PrxScheduler.PrxInnerState.OnOverstayed` | `src/mpsl_timeslot.rs:2793-2806` | Done, inactive, nothing outstanding. |
| `PrxScheduler.PrxInnerState.OnOther` | `src/mpsl_timeslot.rs:2808-2828` | Inactive, nothing outstanding, so a parked session can go on. |
| `PrxScheduler.PrxInnerState.MarkWindow` | `src/mpsl_timeslot.rs:2949-2956` | Marks and sets up the request only when not done, inactive and nothing outstanding; reports whether a request goes to MPSL. |
| `PrxScheduler.PrxInnerState.UnmarkWindow` | `src/mpsl_timeslot.rs:2963-2966` | After a refusal nothing is outstanding. |
| `PrxScheduler.PrxInnerState.ConfigureFast` | `src/mpsl_timeslot.rs:2061-2064` | Distance and refill change, the budget keeps its value. |
| `PhaseLockModel.LockIsSafe` | `src/mpsl_timeslot.rs:813-883` | In every run an active lock has a positive period and fewer misses than the limit, locks are at most losses plus one, and every NORMAL distance is positive and within the maximum. |
| `PhaseLockModel.SafeSinceOpened` | `src/mpsl_timeslot.rs:813-883` | This holds in every run since the session was opened. |
| `PhaseLockModel.SlotsFollowHint` | `src/mpsl_timeslot.rs:813-869` | In every run, after a hint and while the misses stay below the limit, the first slot is requested at the hinted distance and every later one a period of that hint on, so slot n starts at the hinted distance and n minus 1 periods. |
| `PhaseLockModel.FirstSlotExactly` | `src/mpsl_timeslot.rs:813-834` | The first slot after a hint is requested at the hinted distance exactly if that is within the maximum; otherwise the lock is lost and the request is the earliest. |
| `PhaseLockModel.InterruptedFallsBack` | `src/mpsl_timeslot.rs:1557-1671` | After SESSION_IDLE, a refusal or OVERSTAYED there is no lock and the request is the earliest. |
| `PhaseLockModel.LocksAreCounted` | `src/mpsl_timeslot.rs:836-883` | The lock count is the number of hints that found no lock, the reacquire count the number of losses and of session ends. |
| `PhaseLockModel.SkipsFollowHint` | `src/mpsl_timeslot.rs:1021-1040` | In fixed-skip mode a slot is skipped exactly if fewer than the configured number have started since the last hint. |
| `PhaseLockModel.MissLimitFallsBack` | `src/mpsl_timeslot.rs:871-883` | After as many misses as the limit with no hint between, the next slot is requested as early as possible. |
| `PhaseLockModel.MissesAddUp` | `src/mpsl_timeslot.rs:871-883` | Without a hint a lock survives only while its misses stay below the limit, and an unlocked session stays unlocked. |
| `PhaseLockModel.EveryPipeOnce` | `src/mpsl_timeslot.rs:1014-1019` | As many consecutive slots as there are enabled pipes serve every enabled pipe exactly once. |
| `PtxScheduler.NextPipeInMask` | `src/mpsl_common.rs:18-32` | The first enabled pipe after the current one, cyclically, and none exactly for an empty mask. |
| `PtxScheduler.PtxInnerState.NextRequest` | `src/mpsl_timeslot.rs:813-834` | The hinted distance once, then the period, if within range; else the lock is lost and the request is the earliest. |
| `PtxScheduler.PtxInnerState.ObserveHint` | `src/mpsl_timeslot.rs:836-869` | Locks to the hint, at a distance no shorter than the slot match. |
| `PtxScheduler.PtxInnerState.ObserveMiss` | `src/mpsl_timeslot.rs:871-883` | One more miss, and the lock is lost at the limit. |
| `PtxScheduler.PtxInnerState.OnStart` | `src/mpsl_timeslot.rs:1021-1040` | Skips the slot while a skip is left in fixed-skip mode. |
| `PtxScheduler.PtxInnerState.OnSessionIdle` | `src/mpsl_timeslot.rs:1557-1578` | The lock is lost and the request is the earliest. |
| `PtxScheduler.PtxInnerState.OnRefused` | `src/mpsl_timeslot.rs:1595-1615` | An active lock is lost and the request is the earliest. |
| `PtxScheduler.PtxInnerState.OnOverstayed` | `src/mpsl_timeslot.rs:1650-1671` | The lock is lost whatever it was, and the request is the earliest. |
| `CodecModel.FrameRoundTrip` | `src/transport.rs:149-173` | Decoding inverts encoding for every frame, whatever bytes follow it. |
| `CodecModel.FrameReencodes` | `src/transport.rs:118-173` | Every accepted frame re-encodes to its own prefix, and one that fits an ESB payload is accepted by the encoder. |
| `CodecModel.FrameRefusedExactly` | `src/transport.rs:118-147` | A frame is refused exactly if it is shorter than its header or the length it names, has another version, or an unknown flag. |
| `CodecModel.AckRoundTrip` | `src/transport.rs:197-220` | A transport ACK decodes to what was encoded, trailing bytes ignored. |
| `CodecModel.AckReencodes` | `src/transport.rs:209-220` | An accepted transport ACK re-encodes to its own bytes. |
| `CodecModel.AckRefusedExactly` | `src/transport.rs:209-220` | A transport ACK is refused exactly if it is shorter than four bytes or lacks the magic. |
| `CodecModel.HintRoundTrip` | `src/mpsl_schedule.rs:63-99` | Exactly the valid hints survive the wire, and an invalid one is refused for its own reason. |
| `CodecModel.HintReencodes` | `src/mpsl_schedule.rs:79-99` | An accepted hint re-encodes to its own bytes. |
| `CodecModel.ValidExactly` | `src/mpsl_schedule.rs:52-60` | A hint is valid exactly with version 1 and a window that is positive and fits its period; the version error comes first. |
| `CodecModel.HintRefusedExactly` | `src/mpsl_schedule.rs:79-99` | Each refusal of a hint exactly under its condition, and an accepted one has valid timing. |
| `CodecModel.HintFieldExactly` | `src/mpsl_common.rs:81-86` | A valid hint reads back from its field; an invalid one leaves the bytes that were there. |
| `CodecModel.ReadCounterExactly` | `src/mpsl_common.rs:107-120` | A counter is read exactly if the length says four bytes and the buffer holds them, and it is those bytes. |
| `CodecModel.AckFields` | `src/mpsl_common.rs:89-120` | Counter and extension of an ACK packet survive whatever the hint bytes are, and the hint is read from exactly those bytes. |
| `CodecModel.AckPacketRoundTrip` | `src/mpsl_common.rs:68-120` | Counter, valid hint and an extension of at most 228 bytes all survive the trip through a packet buffer. |
| `CodecModel.NestedAckRoundTrip` | `src/mpsl_common.rs:89-105` | A transport ACK in the extension of an ACK packet comes out as it went in. |
| `CodecModel.CounterFrameRoundTrip` | `src/mpsl_common.rs:45-66` | A frame behind a counter comes out as it went in. |
| `CodecModel.PacketHeader` | `src/header.rs:20-55` | In a packet buffer byte 2 is the length, bits 2:1 of byte 3 are the PID and bit 0 is clear; the software bytes and what lies behind the payload stay. |
| `CodecModel.SetPidBits` | `src/header.rs:53-55` | Setting the PID changes bits 2:1 and no other, and reads back modulo 4. |
| `CodecModel.SetNoAckBits` | `src/header.rs:63-69` | Setting the flag changes bit 0 and no other, and reads back. |
| `CodecModel.LittleEndian` | `src/mpsl_common.rs:41-42` | Counters and hint fields are written least significant byte first. |
| `CodecModel.HintFields` | `src/mpsl_schedule.rs:63-77` | Magic, version, flags and the four fields of a hint stand at their offsets. |
| `CodecModel.WireVectors` | `src/transport.rs:602-606` | The bytes of a known frame, transport ACK and packet. |
| `DedupModel.AcceptanceDestutters` | `src/transport.rs:233-249` | Per device, the accepted messages of any stream are its bound, well-formed frames with consecutive equal sequence numbers removed. |
| `DedupModel.RejectedLeavesTracker` | `src/transport.rs:233-249` | Errors and repeats leave the tracker unchanged; an acceptance changes the entry of its device only. |
| `DedupModel.AnswerExactly` | `src/transport.rs:233-249` | An arrival is an error exactly if it is malformed, not bound to its pipe or of an unknown device, a repeat exactly if it carries the last accepted number of its device, and otherwise its decoded message. |
| `DedupModel.DestutterLeavesNoRepeat` | `src/transport.rs:271-284` | What is accepted never repeats the number accepted before it. |
| `Transport.EncodeFrame` | `src/transport.rs:149-165` | Succeeds exactly for known flags and a payload that fits; writes the frame and nothing behind it, or nothing at all. |
| `Transport.EncodeAck` | `src/transport.rs:197-206` | Writes four bytes and nothing behind them, or nothing at all. |
| `Transport.EncodeHint` | `src/mpsl_schedule.rs:63-77` | Writes a valid hint and nothing around it, or nothing at all. |
| `Transport.WriteCounter` | `src/mpsl_common.rs:34-43` | Length, PID and counter; software bytes and rest stay. |
| `Transport.WriteCounterPayload` | `src/mpsl_common.rs:45-66` | Refused with nothing written exactly when it exceeds an ESB payload. |
| `Transport.WriteSchedule` | `src/mpsl_common.rs:68-87` | Counter and hint; an invalid hint leaves the bytes that were there. |
| `Transport.WriteAck` | `src/mpsl_common.rs:89-105` | Counter, hint, and the extension exactly if it fits. |
| `Transport.SequenceTracker.Accept` | `src/transport.rs:271-284` | New, repeat, or out of range; only a new number changes an entry. |
| `Transport.SequenceTracker.ResetDevice` | `src/transport.rs:287-296` | Forgets one device, or nothing out of range. |
| `Transport.StaticBindingTable.Bind` | `src/transport.rs:329-337` | Binds one pipe, or nothing out of range. |
| `Transport.StaticBindingTable.Unbind` | `src/transport.rs:340-348` | Clears one pipe, or nothing out of range. |
| `Transport.AcceptBoundFrame` | `src/transport.rs:233-249` | Decode, binding, repeat, in that order, equal to the model function. |
| `SnapshotLink.TransportAckImpliesQueued` | `boards/elytra/src/main.rs:412-499` | Whenever the right half leaves a snapshot because of an ACK, the left queue had accepted its last new frame, which carries that number and is a frame of that snapshot or of one a multiple of 256 earlier. |
| `SnapshotLink.AckedSnapshotIsThisOne` | `boards/elytra/src/main.rs:412-499` | It is that very snapshot if and only if the left half had taken any frame of it as new. |
| `SnapshotLink.AckNamesFrame` | `boards/elytra/src/bin/left_central.rs:240-263` | The transport ACK of a frame names its number, and there is one exactly if it was queued. |
| `SnapshotLink.PushExactly` | `src/mpsl_timeslot.rs:1957-1983` | An event is refused exactly if it is longer than 32 bytes or 32 wait, and then nothing changes; otherwise it is the newest. |
| `SnapshotLink.StagedDecodes` | `boards/elytra/src/main.rs:412-425` | In every run the staged frame decodes to the newest snapshot with its number, marked as a repetition from its second attempt on. |
| `SnapshotLink.PoppedInOrder` | `src/mpsl_timeslot.rs:1985-1994` | What was popped followed by what waits is what was queued, and at most 32 wait. |
| `SnapshotLink.StepKeepsInv` | `src/mpsl_timeslot.rs:2480-2588` | Repeats, full queues, lost ACKs, retries, superseded snapshots and traffic on other pipes keep the account of frames and answers. |
| `SnapshotCollision.UntakenExitMeansCollision` | `src/mpsl_timeslot.rs:2472-2531` | The exit of a snapshot, taken or not, is answered for a transmission with the same PID and CRC; if it was never taken, that one is of an earlier snapshot and has another payload, unless 2^32 sends lie between. |
| `SnapshotCollision.UntakenExit` | `src/mpsl_timeslot.rs:2480-2500` | A run with any snapshots in which the right half leaves snapshot 256 untaken if and only if its frame collides with that of snapshot 0, the only one the left half then queued. |
| `SnapshotShown.AckedSnapshotIsShown` | `boards/elytra/src/bin/left_central.rs:315-346` | After an acknowledged snapshot, until another frame is taken as new, an application that popped everything shows its rows, or those of one a multiple of 256 earlier; with at most 256 snapshots, its own. |
| `SnapshotShown.FrameConsumed` | `boards/elytra/src/bin/left_central.rs:323-341` | A popped frame of the bound device replaces the rows unless it repeats the last number. |
| `EventRings.EventRing.PushEvent` | `src/mpsl_timeslot.rs:1957-1983` | The ring is a FIFO of 32 slots that refuses, and counts, a payload over 32 bytes or a full ring. |
| `EventRings.EventRing.PopEvent` | `src/mpsl_timeslot.rs:1985-1994` | Takes the oldest event, or none. |

## Left out

- Register programming, DMA pointers, NVIC priorities, fences, power cycling, addresses and TX power.
- `PtxModel.AckArrivesInv`: the radio's writes are one event at the end of a reception; a buffer is never seen half written.
- `Retransmit.RetransmitLiveness`: a TIMER interrupt in Tx or TxNoAck is excluded. Giving up a packet leaves CC[0] armed, so it can happen; the source asserts that it does not.
- `PrxSuspend.MoveKeepsInv`: the timer flag of a PRX interrupt is no field; `disabled` stands for either event, which the handler treats alike.
- `SuspendModel.SuspendIsRaceFree`: one suspend future at a time, as in `PrxSuspend`; a second one would replace the waker of the first.
- `PrxSuspend.NoLostWakeUp`: calls on a driver that is already suspended are no moves. The PRX driver's flags are modelled on values; the form in place is shown for the PTX driver, whose fields are the same.
- `Delivery.ExactlyOnce`: the condition of three unheard packets is sufficient, not necessary; the exact condition is the one of `Delivery.AckedDelivered`.
- `Delivery.AtMostOnceInOrder`: stopping the PRX while an ACK is on the air is not part of a link run, because it frees an acknowledged packet undelivered. `PrxModel.StopReceivingInv` covers it for buffers, `PrxSuspend.AcceptedAreAccountedFor` for packets.
- `Delivery.PidDiscipline`: suspension is not part of a link run; with a parked packet it breaks the numbering as well as ownership (`ParkedSuspend.ForgottenBuffers`, `ParkedPacketRepeatsPid`).
- Order of `send` calls: a dequeue takes the lowest queued index, so only the order from dequeue on is claimed.
- The check of `send_to` that a payload fits the buffer size, beside the configured maximum length; one length limit stands for both.
- The PTX and PRX entry points for timeslots (`ts_start_tx`, `ts_force_stop`, `ts_start_rx`) and the diagnostic ACK of timeslot mode; the timeslot receiver is modelled as the snapshot link uses it.
- `SnapshotLink.TransportAckImpliesQueued`: the device may speak on pipe 1 only, and the receiving session is not reset. The documentation says the transport ACK follows binding and duplicate checks; the code answers once the event queue took a frame of the device on pipe 1, and that is what is proved.
- `PrxScheduleModel.SchedulingIsSound`: sessions opened with a report interval. The counted run of `run_prx_slots` has no `request_window` and leaves its first request unmarked.
- `PhaseLockModel.LockIsSafe`: hint age and statistics.
- `TrackerModel.WindowsAddUp`: counters are unbounded; the source's 32-bit counters would panic or wrap after four billion events.
- `TimingModel.TimingLaw`: one configuration for a whole run, as the boards have; `TimingModel.WaitExactly` is for any.
- `LinkTimings.LinkTiming.BoundedWait`: calls that never return are no calls of the method; `TimingModel.CatchUpEndsExactly` says which they are.
- Encoding of a frame header alone, `fits_esb_payload` and the builders of configurations, which are single expressions.
- USB, HID reports, Bluetooth, logging, build scripts and coexistence profile tables.
