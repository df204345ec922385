# Verification of the pod firmware

A Dafny model of the parts of this STM32F767 firmware that hold state and are driven by interrupts,
with proofs of what they are meant to guarantee. `dafny verify dfyconfig.toml` checks everything.

The C code is modelled twice wherever it works by changing things in place. A class carries the
fields of the C structure, and its methods follow the C statements; each method is proved equal to a
function on values. The functions are what runs, interleavings and hardware are made of, and what
the main results speak about.

## What is modelled

**The pod state machine** (`PodModel`, `PodController`, `PodRuns`, `PodTriggers`, `PodDeadline`).
The dispatcher and all entry, in-state and exit handlers. Sensor values, requests from outside and
the configuration are arbitrary at every call. A run is a sequence of calls with growing tick
values; the handlers see them wrapped to 32 bits. `PodTriggers` states, without the handlers, what a
pod does on which sensors, ticks and requests. `PodDeadline` proves the must-brake deadline, within
300 ticks of MUST_BRAKE_TO.

**The I2C transfer engines** (`I2cBus`, `I2cRecord`, `I2cPolling`, `I2cModel`, `I2cInterrupt`,
`I2cAbort`, `I2cDma`, `I2cDmaRuns`, `I2cDmaProgress`, `I2cDriver`). One model of the peripheral
serves all three: START latches address and direction, NBYTES counts down, and at zero RELOAD raises
TCR, AUTOEND a STOP, and neither raises TC (START, STOP and acknowledge as in sections 3.1.4 and
3.1.6 of the I2C-bus specification UM10204). In the polling engine the flags may read as anything
and the tick is any that keeps advancing; `I2cRecord` keeps every reading and access of a call, so
that a timeout means that time has passed and an access that its flag has been read. In the
interrupt and DMA engines the events of the peripheral, of the stream and of the driver interleave
freely, with a NACK at any byte and user aborts anywhere, and every transfer is shown to end in
exactly one callback.

**The DMA handle** (`DmaModel`, `DmaOutcomes`, `DmaStream`). All single-buffer calls and the
interrupt handler, with callbacks that may make any sequence of calls themselves, and with the
readings of status and tick that each polling loop makes.

**The Ethernet rings** (`EthRing`, `EthFrames`, `EthTx`, `EthTxQueue`, `EthRx`, `EthRxQueue`). The
driver on its own, and the driver together with the copy and release loops of the interface layer
and an in-order DMA, step by step. Frames leave and arrive whole, once and in order.

**The console** (`Counters`, `PcBuffer`, `Usart`, `LineReader`, `LineDiscipline`, `UartTransmit`,
`Tokenizer`). Ring buffers whose 32-bit counters run freely, the interrupt handler that edits and
echoes, the reader and the blocking writer step by step against the interrupt, and the tokenizer in
place.

**Sliding windows** (`SlidingWindows`). The impulse-capped accelerometer window and the moving
average of an analog input.

## Where a property fails, and exactly when it holds

- After a DMA transfer has been refused or aborted, the stream may be left busy and the next
  transfer finds it so: iff DMAEN was clear and XferCount not zero when I2C_ITError ran for the
  STOP, that is, the stream had been restarted, before or after the NACK or abort, for a block that
  no TCR called for (`I2cDmaRuns.ErrorLeavesStreamBusyIff`; from the start of any write of more than
  255 bytes, `I2cDmaRuns.StreamCanBeLeftBusy`).
- A DMA read may report success before its last byte is in the buffer: iff that byte waits in RXDR
  when the STOP is served (`I2cDmaRuns.SuccessIsCompleteIff`, `I2cDmaRuns.SuccessCanBeEarly`). The
  stream still fetches it.
- A transfer started from the success callback of a DMA transfer is refused its stream iff DMAEN was
  set when the STOP was served (`I2cDmaRuns.SuccessFindsStreamBusyIff`,
  `I2cDmaRuns.SuccessCanFindStreamBusy`), until the interrupt of the stream has been served.
- An aborted interrupt-driven read stores one byte behind pData[0..Size) iff its bytes had all been
  read, so that XferCount is zero, when the dummy byte of the abort is served
  (`I2cAbort.StoresBehindIff`, `I2cAbort.AbortCanStoreBehind`).
- HAL_I2C_Master_Receive returns HAL_TIMEOUT not only when time has run out. When it does, time has
  run out, or the bus was never free, iff the call did not end on a STOP that the slave sent while a
  byte was awaited (`I2cRecord.TimedOutIff`).
- After HAL_DMA_Abort has timed out no start is ever accepted, until HAL_DMA_Init or HAL_DMA_DeInit
  is called (`DmaOutcomes.OnlyInitRecovers`).
- A DMA start is accepted on a stream that is still enabled only after a poll for the end of its
  transfer has timed out, or failed with an abort that timed out (`DmaModel.CalmIffNotGivenUp`,
  `DmaModel.StartFindsStreamDisabled`, `DmaModel.StartedWhileRunning`).
- HAL_ETH_TransmitFrame looks at the first descriptor only: it writes a descriptor that the DMA
  still owns iff the frame has more segments than descriptors are free
  (`EthTxQueue.OverwritesIffTooLong`).
- Every frame is delivered iff all fit the receive ring: from the first that does not, nothing is,
  whatever DMA and driver do (`EthRxQueue.AllArriveIfTheyFit`,
  `EthRxQueue.LongFrameStopsReception`). With the receive watchdog that this firmware enables no
  frame is longer than 2048 bytes, so that its ring of five holds every frame
  (`EthRxQueue.AllArriveUnderWatchdog`); the condition concerns a disabled watchdog, or a ring of
  one.
- A ring buffer stays a queue when its counters wrap iff its size divides 2^32
  (`PcBuffer.FifoIffAligned`).
- message_available stops being the number of messages that can be fetched iff a CR or LF is rubbed
  out, or one that the handler counts meets a full buffer, or one that it does not count, being the
  second of a CR LF or LF CR pair, finds room, or one is counted between the load and the store of
  the reader's decrement (`LineReader.CountKeptIff`; over whole runs `LineReader.CountDrifts`). A
  terminal that ends lines with CR LF falls one line behind with every LF
  (`LineReader.CrLfStrandsLine`).
- The echo of a backspace, with the transmitter disabled, waits until something else enables it iff
  fewer than three cells of the transmit queue are free (`UartTransmit.RuboutWaitsIff`).
- Of the characters that do not rub out, and for which there is room, the console drops exactly ESC,
  `[`, the character after a `[` and the second character after an ESC
  (`LineReader.CharacterQueuedIff`).
- A command can be reached iff no earlier command name is a prefix of its name
  (`Tokenizer.ReachableIff`).
- The analog result is the mean of the last 100 samples, whatever the ten-bit converter delivers,
  iff the number of reads N is at most 2^32, or N mod 2^32 is 0 or at least 100, since 100 does not
  divide 2^32 (`SlidingWindows.ResultIsMeanIff`).

## Model

| member | source | states |
|---|---|---|
| `PodRuns.Landing` | common/state_machine.c:43-67 | where a dispatcher call leaves the pod: in the requested state, or where the entry handler redirects it; nothing happens if the request is for the current state |
| `PodRuns.PendingRequestIsCurrent` | common/state_machine.c:32-68 | after every dispatcher call a request still pending asks for the current state |
| `PodRuns.FaultRequestLands` | common/badgerloop_state_handlers.c:106-123 | a FAULT request lands in IDLE from READY, in COAST from PUSHING, in BRAKING from COAST and from early BRAKING, otherwise in FAULT |
| `PodRuns.FaultEntered` | common/badgerloop_state_handlers.c:243-258 | FAULT is newly entered iff requested in IDLE, or requested in BRAKING after DONT_BRAKE_TO, or by a failed pressure check on the way into COAST |
| `PodRuns.TickEffects` | common/state_machine.c:35-41 | the in-state half of a call changes neither state nor push stamp, and issues the commands of the handler iff that is due |
| `PodRuns.IssuedIsLogged` | common/state_machine.c:32-68 | the commands of one call, in order: in-state, exit, entry |
| `PodRuns.FaultFromBrakingBrakes` | common/badgerloop_state_handlers.c:106-114 | a pod that enters FAULT from BRAKING does so late and has just commanded primary and secondary brakes on, last of all |
| `PodRuns.PushRecorded` | common/badgerloop_state_handlers.c:213-217 | pushing_start_ts is set to the tick exactly by calls that enter PUSHING |
| `PodRuns.PushStartRecorded` | common/badgerloop_state_handlers.c:213-217 | over whole runs it is the wrapped tick of the latest push |
| `PodRuns.BrakeCommandsAreLate` | common/badgerloop_state_handlers.c:287-312 | no brake-on command is issued before DONT_BRAKE_TO since the recorded push |
| `PodRuns.NoBrakingSoonAfterPush` | common/badgerloop_state_handlers.c:260-318 | over every run, also across tick wraps, a brake-on command comes at least DONT_BRAKE_TO ticks after the latest push |
| `PodRuns.SamplesCounted` | common/badgerloop_state_handlers.c:297-306 | primary_low_count is the number of qualifying samples in the whole history, modulo 2^32 |
| `PodRuns.SecondaryComesFromBraking` | common/badgerloop_state_handlers.c:301-306 | secondary brakes are commanded on only in BRAKING: by in_braking on a counted sample over the threshold, or by a late FAULT |
| `PodRuns.SecondaryNeedsSamples` | common/badgerloop_state_handlers.c:301-306 | over every run, also while a FAULT is requested, in_braking commands secondary brakes only after more than BRAKING_COUNT_THRS qualifying samples |
| `PodRuns.ThrustersStep` | common/badgerloop_state_handlers.c:260-279 | a call leaves the thrusters on only if it starts and stays in COAST |
| `PodRuns.ThrustersOnlyInCoast` | common/badgerloop_state_handlers.c:271-279 | over every run thrusters are driven only while the current state is COAST |
| `PodTriggers.FaultCall` | common/badgerloop_state_handlers.c:125-138 | FAULT is left for IDLE iff RUN_OVER is set, or RETRY_INIT with the link up, which clears it |
| `PodTriggers.IdleCall` | common/badgerloop_state_handlers.c:154-178 | IDLE asks for FAULT iff the run is not over and one of nine readings is out of its range; which commands POWER_ON and RUN_OVER bring |
| `PodTriggers.ReadyCall` | common/badgerloop_state_handlers.c:195-201 | READY is left for PUSHING iff a pusher switch is open and the acceleration, as an unsigned word, exceeds the impulse |
| `PodTriggers.PushingCall` | common/badgerloop_state_handlers.c:220-230 | PUSHING brakes after MUST_BRAKE_TO, else coasts iff both pusher switches have been closed for over a second; where each of the two is redirected |
| `PodTriggers.CoastCall` | common/badgerloop_state_handlers.c:260-273 | without a timeout COAST goes for BRAKING iff STOPD + POS > TARGET_END_POS, and the primary brakes are commanded on in that call once DONT_BRAKE_TO has passed; THRUST_TO alone decides on the thrusters |
| `PodTriggers.CoastWraps` | common/badgerloop_state_handlers.c:260-273 | for any readings the sum is that of unsigned words, so that a negative one reads as a huge distance |
| `PodTriggers.CoastFaults` | common/badgerloop_state_handlers.c:260-273 | STOPD == -1 asks for FAULT, which COAST turns into BRAKING |
| `PodTriggers.CoastTimesOut` | common/badgerloop_state_handlers.c:260-273 | past MUST_BRAKE_TO it goes for BRAKING whatever the sensors say |
| `PodTriggers.BrakingCall` | common/badgerloop_state_handlers.c:295-318 | which samples are counted, when secondary and primary brakes are commanded, and when BRAKING is left for IDLE |
| `PodTriggers.RequestCall` | common/badgerloop_state_handlers.c:106-325 | where a request from outside leads from every state, and the commands on the way |
| `PodTriggers.RestingCall` | common/state_machine.c:32-41 | a call whose handler is not due, with nothing requested, changes nothing |
| `PodTriggers.RunsOncePerTick` | common/state_machine.c:70-76 | a handler that has run is not due again in that tick, and stamps only its own state |
| `PodTriggers.CoastRecorded` | common/badgerloop_state_handlers.c:243-258 | coast_ts is the tick of the latest call that went for COAST, redirected or not |
| `PodTriggers.PastTargetBrakes` | common/badgerloop_state_handlers.c:260-273 | over every run: a coasting pod brakes in a call iff STOPD + POS > TARGET_END_POS and DONT_BRAKE_TO has passed since the latest push |
| `PodDeadline.StaysUnderWay` | common/badgerloop_state_handlers.c:220-326 | until an outcome, PUSHING, COAST and BRAKING keep the pod among themselves, and late BRAKING stays BRAKING |
| `PodDeadline.CheckBrakes` | common/badgerloop_state_handlers.c:220-318 | an in-state handler that is due after MUST_BRAKE_TO produces an outcome |
| `PodDeadline.PushingPutsUnderWay` | common/badgerloop_state_handlers.c:215-217 | entering PUSHING stamps the start of the run |
| `PodDeadline.StampsOfRun` | common/state_machine.c:70-76 | before the tick wraps no interval stamp lies in the future |
| `PodDeadline.MustBrakeDeadline` | common/badgerloop_state_handlers.c:220-318 | for arbitrary sensors and FAULT requests, within MUST_BRAKE_TO + 300 ticks: primary brakes on, or BRAKING left for IDLE with RUN_OVER and low velocity, or the pressure check of COAST failed |
| `PodDeadline.DeadlineAfterPush` | common/badgerloop_state_handlers.c:215-318 | the same from power-on, for every run and every push in it |
| `PodController.StateMachine.constructor` | common/state_machine.c:6-30 | initial state IDLE, no request, flag POWER_ON |
| `PodController.StateMachine.ChangeState` | common/badgerloop_state_handlers.c:16-19 | the request is recorded |
| `PodController.StateMachine.ToFault` | common/badgerloop_state_handlers.c:106-123 | state and commands are those of the entry function of FAULT |
| `PodController.StateMachine.ToPushing` | common/badgerloop_state_handlers.c:215-217 | the push is stamped |
| `PodController.StateMachine.ToCoast` | common/badgerloop_state_handlers.c:243-258 | pressure checks, venting and the coast stamp |
| `PodController.StateMachine.ToBraking` | common/badgerloop_state_handlers.c:287-293 | too early: back to COAST; else primary brakes on |
| `PodController.StateMachine.InFault` | common/badgerloop_state_handlers.c:125-138 | the in-state function of FAULT |
| `PodController.StateMachine.InIdle` | common/badgerloop_state_handlers.c:154-178 | the in-state function of IDLE, with verify_DAQ |
| `PodController.StateMachine.InReady` | common/badgerloop_state_handlers.c:195-201 | the in-state function of READY |
| `PodController.StateMachine.InPushing` | common/badgerloop_state_handlers.c:220-230 | the in-state function of PUSHING |
| `PodController.StateMachine.InCoast` | common/badgerloop_state_handlers.c:260-273 | the in-state function of COAST |
| `PodController.StateMachine.InBraking` | common/badgerloop_state_handlers.c:295-318 | the in-state function of BRAKING |
| `PodController.StateMachine.FromCoast` | common/badgerloop_state_handlers.c:275-279 | thrusters off |
| `PodController.StateMachine.FromBraking` | common/badgerloop_state_handlers.c:320-325 | brakes off unless for FAULT |
| `PodController.StateMachine.CheckInterval` | common/state_machine.c:70-76 | due on multiples of the interval, once per tick |
| `PodController.StateMachine.Handler` | common/state_machine.c:32-68 | the object after a call is the value that the run properties are proved about |
| `Board.SteadyClockAdvances` | drivers/hal/stm32f7xx_hal_i2c.c:4473-4492 | a 32-bit tick that steps by at most one and never stops eventually exceeds every finite timeout after any start, through the wrap |
| `I2cBus.PlanShape` | drivers/hal/stm32f7xx_hal_i2c.c:655-706 | ceil(Size/255) programmings, all but the last 255 with RELOAD, the last 1..255 with AUTOEND, summing to Size |
| `I2cBus.Begun` | drivers/hal/stm32f7xx_hal_i2c.c:655-668 | a START with the first chunk opens the job |
| `I2cBus.ByteMoved` | drivers/hal/stm32f7xx_hal_i2c.c:670-686 | a byte through the data register counts NBYTES down and extends what was moved |
| `I2cBus.Reloaded` | drivers/hal/stm32f7xx_hal_i2c.c:688-706 | programming the next chunk at TCR, for the same slave, continues the plan |
| `I2cBus.AllMoved` | drivers/hal/stm32f7xx_hal_i2c.c:712-725 | once everything is moved and STOP cleared, the wire carries START, data, STOP |
| `I2cRecord.TurnsLackFlag` | drivers/hal/stm32f7xx_hal_i2c.c:4473-4492 | the turns of a wait that goes on never read the awaited flag up |
| `I2cRecord.ProperAt` | drivers/hal/stm32f7xx_hal_i2c.c:670-725 | in a record of the calls below, each byte is moved directly after TXIS or RXNE was read set, each chunk programmed after TCR, BUSY or TC, and STOPF cleared after it was read |
| `I2cRecord.OnTimeAt` | drivers/hal/stm32f7xx_hal_i2c.c:4480-4481 | in a record of success no reading of the tick is over the timeout |
| `I2cRecord.TimedOutIff` | drivers/hal/stm32f7xx_hal_i2c.c:4573-4615 | a call that reports HAL_TIMEOUT ran out of time, or found the bus occupied for 25 ticks, iff its record does not end on a STOP found while a byte was awaited |
| `I2cPolling.AddressReadsBack` | drivers/hal/stm32f7xx_hal_i2c.c:3641-3694 | the address bytes, MSB first, determine the address |
| `I2cPolling.Master.WaitOnFlag` | drivers/hal/stm32f7xx_hal_i2c.c:4473-4492 | exactly what it reads: the flag, then the tick, over and over; HAL_TIMEOUT iff Timeout is 0 or the last tick read is over it, with the flag never as awaited; a timeout frees the handle |
| `I2cPolling.Master.WaitOnTxisOrStop` | drivers/hal/stm32f7xx_hal_i2c.c:4502-4563 | the same for TXIS and STOPF, with a look for a NACK in each turn; AF exactly when a NACK ended it, HAL_I2C_ERROR_TIMEOUT when time did |
| `I2cPolling.Master.WaitOnRxne` | drivers/hal/stm32f7xx_hal_i2c.c:4573-4615 | the same for RXNE, with the early STOP |
| `I2cPolling.Master.IsAcknowledgeFailed` | drivers/hal/stm32f7xx_hal_i2c.c:4625-4670 | a NACK is waited out to its STOP, recorded as AF, and frees the handle |
| `I2cPolling.Master.Open` | drivers/hal/stm32f7xx_hal_i2c.c:633-655 | lock taken and free bus, or freed again after 25 ticks during which the bus was never read free |
| `I2cPolling.Master.WriteData` | drivers/hal/stm32f7xx_hal_i2c.c:668-708 | the loop moves the whole buffer in order, chunk by chunk |
| `I2cPolling.Master.ReadData` | drivers/hal/stm32f7xx_hal_i2c.c:795-832 | the loop fills the buffer in order and nothing behind it |
| `I2cPolling.Master.Finish` | drivers/hal/stm32f7xx_hal_i2c.c:710-733 | waits for STOP and always frees the handle |
| `I2cPolling.Master.Transmit` | drivers/hal/stm32f7xx_hal_i2c.c:629-740 | busy iff not free; otherwise READY and unlocked on every path; HAL_TIMEOUT only when time has run out, HAL_OK only in time, with each byte, reload and STOP directly after its flag was read; HAL_OK means START, exactly pData, STOP and the plan of chunks |
| `I2cPolling.Master.Receive` | drivers/hal/stm32f7xx_hal_i2c.c:753-865 | the same for reception, where HAL_TIMEOUT also stands for an early STOP, and nothing behind Size is written |
| `I2cPolling.Master.RequestMemory` | drivers/hal/stm32f7xx_hal_i2c.c:3641-3761 | the address phase: START and the address bytes, ended by RELOAD or TC |
| `I2cPolling.Master.MemWrite` | drivers/hal/stm32f7xx_hal_i2c.c:1733-1870 | HAL_OK means one START, address, data, one STOP; time, permission and release as for Transmit |
| `I2cPolling.Master.MemRead` | drivers/hal/stm32f7xx_hal_i2c.c:1885-2015 | HAL_OK means START, address, repeated START, data, STOP; time, permission and release as for Transmit |
| `I2cInterrupt.MasterStarts` | drivers/hal/stm32f7xx_hal_i2c.c:1148-1274 | an accepted start leaves counters and peripheral in step, addressing the slave asked for |
| `I2cInterrupt.MemStarts` | drivers/hal/stm32f7xx_hal_i2c.c:2028-2212 | so does a memory transfer after its address phase |
| `I2cInterrupt.RunningTakesByte` | drivers/hal/stm32f7xx_hal_i2c.c:3283-3296 | RXNE and TXIS: one byte, all counters by one |
| `I2cInterrupt.RunningReloads` | drivers/hal/stm32f7xx_hal_i2c.c:3297-3320 | TCR: the next chunk in both places, for the slave that CR2 has kept |
| `I2cInterrupt.RunningCompletes` | drivers/hal/stm32f7xx_hal_i2c.c:3364-3368 | a STOP without NACK finds everything moved, once the handler has taken a byte that still waits in RXDR |
| `I2cInterrupt.LockstepInEveryInterleaving` | drivers/hal/stm32f7xx_hal_i2c.c:3263-3374 | in every interleaving NBYTES left == XferSize <= XferCount, the wire carries exactly pData up to the pointer, and no HAL_I2C_ERROR_SIZE branch is reached |
| `I2cInterrupt.DoneIsFinal` | drivers/hal/stm32f7xx_hal_i2c.c:2969-2980 | after the callback no event changes anything |
| `I2cInterrupt.AtMostOneCallback` | drivers/hal/stm32f7xx_hal_i2c.c:3941-4025 | a master transfer, refused and aborted anywhere, makes at most one callback, ends READY with no handler, and later events dispatch nowhere |
| `I2cInterrupt.AtMostOneMemCallback` | drivers/hal/stm32f7xx_hal_i2c.c:3941-4025 | the same for memory transfers, which cannot be aborted |
| `I2cInterrupt.EveryStepCounts` | drivers/hal/stm32f7xx_hal_i2c.c:3263-3374 | every effective step uses up a measure |
| `I2cInterrupt.NeverStuck` | drivers/hal/stm32f7xx_hal_i2c.c:3263-3374 | until the callback some step is effective |
| `I2cInterrupt.CallbackComes` | drivers/hal/stm32f7xx_hal_i2c.c:3263-3374 | every run of effective steps is bounded by the measure, and is at rest iff the callback has been made |
| `I2cInterrupt.ExactlyOneCallback` | drivers/hal/stm32f7xx_hal_i2c.c:1148-1274 | from an accepted start, with NACKs and user aborts anywhere: at rest iff exactly one callback has been made, and without further aborts that comes within a known bound |
| `I2cInterrupt.ExactlyOneMemCallback` | drivers/hal/stm32f7xx_hal_i2c.c:2028-2212 | the same for memory transfers |
| `I2cInterrupt.MasterSucceeds` | drivers/hal/stm32f7xx_hal_i2c.c:3984-4022 | in every interleaving without NACK and abort a master write ends in MasterTxCplt and a master read in MasterRxCplt, alone, at rest iff made, with pData on the wire or received |
| `I2cInterrupt.MemSucceeds` | drivers/hal/stm32f7xx_hal_i2c.c:3984-4022 | a memory write in MemTxCplt and a memory read in MemRxCplt |
| `I2cInterrupt.HinderedEnds` | drivers/hal/stm32f7xx_hal_i2c.c:4183-4278 | a refused transfer ends in the error callback and an aborted one in the abort callback, whatever happens |
| `I2cInterrupt.ZeroSizeIsInterruptTransfer` | drivers/hal/stm32f7xx_hal_i2c.c:1453-1474 | a DMA transfer of no bytes is the interrupt transfer of no bytes, but for TXIE on a read |
| `I2cInterrupt.AbortAsksForStop` | drivers/hal/stm32f7xx_hal_i2c.c:2919-2953 | accepted iff the mode is MASTER and the handle unlocked; then aborting, a STOP requested for one byte at most, and the enables that the handler in charge gets |
| `I2cInterrupt.SequentialEnds` | drivers/hal/stm32f7xx_hal_i2c.c:3321-3328 | a TCR with nothing left and no AUTOEND: the callback without a STOP, handle free, own interrupts off |
| `I2cInterrupt.SizeErrors` | drivers/hal/stm32f7xx_hal_i2c.c:3329-3361 | the other unexpected ends of a chunk: HAL_I2C_ERROR_SIZE and the error callback |
| `I2cInterrupt.InvStep` | drivers/hal/stm32f7xx_hal_i2c.c:4183-4278 | running, refused, aborting or done: every step stays among these |
| `I2cAbort.StoresBehindIff` | drivers/hal/stm32f7xx_hal_i2c.c:2919-2953 | in every run of a master transfer nothing is stored behind pData[0..Size), except one byte iff the handler serves RXNE after a user abort with XferCount zero; XferCount then wraps |
| `I2cAbort.AbortAfterLastByte` | drivers/hal/stm32f7xx_hal_i2c.c:3283-3290 | that happens to any read whose bytes have all been stored when it is aborted |
| `I2cAbort.AbortCanStoreBehind` | drivers/hal/stm32f7xx_hal_i2c.c:3283-3290 | such a run, from the start of a read of one byte |
| `I2cDma.TilesCover` | drivers/hal/stm32f7xx_hal_i2c.c:1405-1424 | the blocks are contiguous, in order, cover the buffer and have the lengths of the programmings |
| `I2cDma.MasterStarts` | drivers/hal/stm32f7xx_hal_i2c.c:1384-1480 | an accepted start leaves stream, counters and peripheral in step |
| `I2cDma.MemStarts` | drivers/hal/stm32f7xx_hal_i2c.c:2225-2420 | so does a memory transfer |
| `I2cDma.RestartFields` | drivers/hal/stm32f7xx_hal_i2c.c:4306-4341 | the restart inside the completion callback is accepted, for the next block |
| `I2cDma.RestartedServes` | drivers/hal/stm32f7xx_hal_i2c.c:3521-3558 | TCR programs exactly the block that the stream was restarted for |
| `I2cDma.RefusedFinishes` | drivers/hal/stm32f7xx_hal_i2c.c:4306-4398 | a transfer stays refused through an interrupt of its stream, even one that restarts the stream |
| `I2cDma.DmaIrqIsTheHandler` | drivers/hal/stm32f7xx_hal_dma.c:856-931 | on a transfer-complete flag, busy or aborting, the DMA handler with the callbacks of this driver is the step of the machine |
| `I2cDma.IrqIsTheHandlerInRuns` | drivers/hal/stm32f7xx_hal_dma.c:758-967 | in every run, whenever the interrupt of the stream is pending, its step is the DMA handler with the callbacks that the transfer installed |
| `I2cDma.InvStep` | drivers/hal/stm32f7xx_hal_i2c.c:3497-3576 | streaming, restarted, drained, refused, aborting, winding up, early or done: every step, user aborts included, stays among these |
| `I2cDmaRuns.BlocksMatchCounts` | drivers/hal/stm32f7xx_hal_i2c.c:3521-3558 | in every interleaving with NACKs and user aborts: no restart refused, every block as long as its NBYTES, the blocks tile pData in order, the stream at most one block ahead |
| `I2cDmaRuns.MemBlocksMatchCounts` | drivers/hal/stm32f7xx_hal_i2c.c:2225-2420 | the same for memory transfers |
| `I2cDmaRuns.SuccessDelivers` | drivers/hal/stm32f7xx_hal_i2c.c:4306-4398 | a success callback means exactly pData on the wire, or received, in the planned blocks, but for a last byte that may wait in RXDR for the stream |
| `I2cDmaRuns.MemSuccessDelivers` | drivers/hal/stm32f7xx_hal_i2c.c:2225-2420 | the same for memory transfers |
| `I2cDmaRuns.SuccessIsCompleteIff` | drivers/hal/stm32f7xx_hal_i2c.c:3565-3569 | when the STOP is served, the success callback finds everything moved iff no byte waits in RXDR |
| `I2cDmaRuns.SuccessCanBeEarly` | drivers/hal/stm32f7xx_hal_i2c.c:4378-4397 | such a run, from the start of a read of 256 bytes: STOPI is enabled since the first restart |
| `I2cDmaRuns.SuccessFindsStreamBusyIff` | drivers/hal/stm32f7xx_hal_i2c.c:3986-4021 | the success callback finds the stream busy, and a transfer started in it is refused its stream, iff DMAEN was set when the STOP was served |
| `I2cDmaRuns.ReadyAfterSuccess` | drivers/hal/stm32f7xx_hal_dma.c:896-931 | that is over once the interrupt of the stream has been served |
| `I2cDmaRuns.SuccessCanFindStreamBusy` | drivers/hal/stm32f7xx_hal_i2c.c:4378-4397 | such a run, from the start of a read of 256 bytes |
| `I2cDmaRuns.ErrorLeavesStreamBusyIff` | drivers/hal/stm32f7xx_hal_i2c.c:4183-4278 | after an error or abort callback the stream is busy iff DMAEN was clear and XferCount not zero when the STOP was served; then the next transfer finds its stream refused |
| `I2cDmaRuns.MemErrorLeavesStreamBusyIff` | drivers/hal/stm32f7xx_hal_i2c.c:4183-4278 | the same for memory transfers |
| `I2cDmaRuns.RefusalBetweenBlocks` | drivers/hal/stm32f7xx_hal_i2c.c:4183-4278 | four steps lead there from any restart that waits for its TCR |
| `I2cDmaRuns.StreamCanBeLeftBusy` | drivers/hal/stm32f7xx_hal_i2c.c:4183-4278 | such a run, from the start of any write of more than 255 bytes |
| `I2cDmaProgress.EveryStepCounts` | drivers/hal/stm32f7xx_hal_i2c.c:3497-3576 | every step of a DMA transfer that changes something uses up a measure |
| `I2cDmaProgress.NeverStuck` | drivers/hal/stm32f7xx_hal_i2c.c:3497-3576 | until the callback some step is effective |
| `I2cDmaProgress.ExactlyOneCallback` | drivers/hal/stm32f7xx_hal_i2c.c:1384-1480 | from an accepted start, with a NACK at any byte and user aborts anywhere: at most one callback, at rest iff it has been made and the interrupt of the stream served, and without further aborts within a known bound |
| `I2cDmaProgress.ExactlyOneMemCallback` | drivers/hal/stm32f7xx_hal_i2c.c:2225-2420 | the same for memory transfers |
| `I2cDmaProgress.MasterSucceeds` | drivers/hal/stm32f7xx_hal_i2c.c:3984-4022 | in every interleaving without NACK and abort a master DMA write ends in MasterTxCplt and a read in MasterRxCplt, alone; at rest it has been made and pData moved |
| `I2cDmaProgress.MemSucceeds` | drivers/hal/stm32f7xx_hal_i2c.c:3984-4022 | a memory write in MemTxCplt and a memory read in MemRxCplt |
| `I2cDmaProgress.HinderedEnds` | drivers/hal/stm32f7xx_hal_i2c.c:4183-4278 | a refused DMA transfer ends in the error callback and an aborted one in the abort callback, whatever happens |
| `I2cDriver.I2cHandle.MasterIsrIt` | drivers/hal/stm32f7xx_hal_i2c.c:3263-3374 | the handler on the handle is the step on values |
| `I2cDriver.I2cHandle.MasterIsrDma` | drivers/hal/stm32f7xx_hal_i2c.c:3497-3576 | the same for the DMA handler |
| `I2cDriver.I2cHandle.ITMasterCplt` | drivers/hal/stm32f7xx_hal_i2c.c:3941-4025 | completion after STOP: state, error, or one of the four success callbacks, chosen by state and mode |
| `I2cDriver.I2cHandle.ITError` | drivers/hal/stm32f7xx_hal_i2c.c:4183-4278 | error and user abort, with the stream aborted first in DMA mode |
| `I2cDriver.I2cHandle.DmaAborted` | drivers/hal/stm32f7xx_hal_i2c.c:4437-4461 | the stream confirms its abort |
| `I2cDriver.I2cHandle.EventIRQHandler` | drivers/hal/stm32f7xx_hal_i2c.c:2969-2980 | dispatch through XferISR, or nowhere |
| `I2cDriver.I2cHandle.DmaMasterCplt` | drivers/hal/stm32f7xx_hal_i2c.c:4306-4398 | the completion callback: restart with the next block, or wait for STOP |
| `I2cDriver.I2cHandle.DmaInterrupt` | drivers/hal/stm32f7xx_hal_dma.c:856-931 | the stream interrupt with this callback |
| `I2cDriver.I2cHandle.MasterStartIt` | drivers/hal/stm32f7xx_hal_i2c.c:1148-1274 | accepted iff READY and unlocked; the handle is then that of the started transfer |
| `I2cDriver.I2cHandle.MasterStartDma` | drivers/hal/stm32f7xx_hal_i2c.c:1384-1587 | the same in DMA mode, with the first block started |
| `I2cDriver.I2cHandle.MasterAbortIt` | drivers/hal/stm32f7xx_hal_i2c.c:2919-2953 | accepted iff the mode is MASTER and the handle unlocked; the handle is then aborting and a STOP requested |
| `I2cDriver.I2cHandle.EnableIrq` | drivers/hal/stm32f7xx_hal_i2c.c:4721-4785 | the tests on the overlapping bits of the request code enable what the request is tabulated to enable: RELOAD and CPLT are one code, and outside DMA mode each request also enables a data interrupt |
| `DmaModel.SoundCall` | drivers/hal/stm32f7xx_hal_dma.c:418-750 | every call keeps: BUSY implies locked, locked implies BUSY or ABORT |
| `DmaModel.SoundIrq` | drivers/hal/stm32f7xx_hal_dma.c:758-967 | so does the interrupt handler, whatever its callbacks call |
| `DmaModel.SoundForever` | drivers/hal/stm32f7xx_hal_dma.c:418-967 | so does every history of calls and interrupts |
| `DmaModel.StartNeedsReady` | drivers/hal/stm32f7xx_hal_dma.c:418-511 | after every history a start succeeds iff the handle is READY, and otherwise changes nothing |
| `DmaModel.CalmIffNotGivenUp` | drivers/hal/stm32f7xx_hal_dma.c:622-750 | a call makes a handle ready whose stream is still enabled iff it is a poll that times out, or whose abort does, on an enabled stream |
| `DmaModel.StartedWhileRunning` | drivers/hal/stm32f7xx_hal_dma.c:655-673 | after such a poll a start is accepted while the stream has all its items left |
| `DmaModel.StartFindsStreamDisabled` | drivers/hal/stm32f7xx_hal_dma.c:418-511 | over every history without such polls a start is accepted only on a disabled stream |
| `DmaOutcomes.InitOutcome` | drivers/hal/stm32f7xx_hal_dma.c:189-320 | status, state, error code and registers after HAL_DMA_Init, for each of its three ends |
| `DmaOutcomes.StartOutcome` | drivers/hal/stm32f7xx_hal_dma.c:418-511 | what an accepted start leaves in handle and stream, and which interrupts StartIt enables |
| `DmaOutcomes.Refusals` | drivers/hal/stm32f7xx_hal_dma.c:418-750 | refused calls: their status, and that they change the error code at most, where Abort and Poll also release the lock |
| `DmaOutcomes.AbortOutcome` | drivers/hal/stm32f7xx_hal_dma.c:525-609 | an abort silences the stream and frees the handle, READY or TIMEOUT by whether the stream stopped; AbortIt only disables it |
| `DmaOutcomes.PollOutcomes` | drivers/hal/stm32f7xx_hal_dma.c:655-750 | what a poll makes of a timeout, an error and either kind of completion |
| `DmaOutcomes.IrqOutcome` | drivers/hal/stm32f7xx_hal_dma.c:758-967 | the handler as one step: for every handle and all flags at once, which errors are recorded, what is silenced, and that it makes the handle READY iff the transfer is aborted, finished or failed |
| `DmaOutcomes.CompletionCallback` | drivers/hal/stm32f7xx_hal_dma.c:912-932 | the completion callback runs on a handle that is already READY and unlocked; errors that its calls leave are handled after it |
| `DmaOutcomes.AbortCallback` | drivers/hal/stm32f7xx_hal_dma.c:863-888 | the abort callback is the last thing to happen |
| `DmaOutcomes.ErrorCallback` | drivers/hal/stm32f7xx_hal_dma.c:935-966 | the error callback runs iff an error is recorded, after the stream was given up if it was a transfer error |
| `DmaOutcomes.BothHalves` | drivers/hal/stm32f7xx_hal_dma.c:808-932 | an interrupt for both halves is one for each, in order |
| `DmaOutcomes.EveryEnd` | drivers/hal/stm32f7xx_hal_dma.c:462-967 | a transfer that completes, one that is aborted and one aborted by interrupt leave the handle alike |
| `DmaOutcomes.OnlyInitRecovers` | drivers/hal/stm32f7xx_hal_dma.c:525-584 | after an abort that timed out no start and no registration is accepted in any history of calls, interrupts and callbacks without HAL_DMA_Init and HAL_DMA_DeInit |
| `DmaStream.RecordedIff` | drivers/hal/stm32f7xx_hal_dma.c:682-713 | a poll records an error iff one of the readings after the first shows it |
| `DmaStream.DmaHandle.Init` | drivers/hal/stm32f7xx_hal_dma.c:189-320 | the call on the handle is the function on values; HAL_TIMEOUT iff every reading found the stream enabled until the tick was more than 5 after the start, and no earlier |
| `DmaStream.DmaHandle.Start` | drivers/hal/stm32f7xx_hal_dma.c:418-451 | the call on the handle is the function on values, and keeps the handle sound |
| `DmaStream.DmaHandle.StartIt` | drivers/hal/stm32f7xx_hal_dma.c:462-511 | the call on the handle is the function on values, and keeps the handle sound |
| `DmaStream.DmaHandle.Abort` | drivers/hal/stm32f7xx_hal_dma.c:525-584 | the same for an abort |
| `DmaStream.DmaHandle.AbortIt` | drivers/hal/stm32f7xx_hal_dma.c:592-609 | the call on the handle is the function on values, and keeps the handle sound |
| `DmaStream.DmaHandle.PollForTransfer` | drivers/hal/stm32f7xx_hal_dma.c:622-750 | the call is the function on values for what was read: HAL_TIMEOUT only at Timeout 0 or on a tick over it, with the awaited flag up at no reading; HAL_OK only with the flag up at the last; HAL_ERROR iff a transfer error was recorded |
| `DmaStream.DmaHandle.RegisterCallback` | drivers/hal/stm32f7xx_hal_dma.c:979-1097 | the call on the handle is the function on values, and keeps the handle sound |
| `DmaStream.DmaHandle.IRQHandler` | drivers/hal/stm32f7xx_hal_dma.c:758-967 | the call on the handle is the function on values, and keeps the handle sound |
| `EthRing.LinksFormOneCycle` | drivers/hal/stm32f7xx_hal_eth.c:489-518 | the next-links form one cycle over all descriptors |
| `EthTx.HandOverShape` | drivers/hal/stm32f7xx_hal_eth.c:725-754 | segment i goes to the i-th descriptor from TxDesc, no other descriptor changes, TxDesc advances |
| `EthTx.SizesAddUp` | drivers/hal/stm32f7xx_hal_eth.c:738-747 | the segment sizes sum to FrameLength |
| `EthTx.LongFrame` | drivers/hal/stm32f7xx_hal_eth.c:701-754 | FS on the first segment only, LS on the last only, sizes summing to FrameLength, TxDesc on by the number of segments |
| `EthTx.TransmitOutcome` | drivers/hal/stm32f7xx_hal_eth.c:668-773 | the same for the function on values: from an unlocked handle with a free first descriptor and room for the frame |
| `EthTx.EthHandle.DescListInit` | drivers/hal/stm32f7xx_hal_eth.c:474-530 | all descriptors linked in a cycle and owned by the CPU |
| `EthTx.EthHandle.TransmitFrame` | drivers/hal/stm32f7xx_hal_eth.c:668-773 | HAL_OK, HAL_ERROR and HAL_BUSY each iff; HAL_OK gives one descriptor per 1524 bytes to the DMA, FS on the first only, LS on the last only, sizes summing to FrameLength, others unchanged, TxDesc advanced; otherwise the ring is unchanged |
| `EthFrames.RoundTrip` | drivers/hal/stm32f7xx_hal_eth.c:701-754 | frames cut into FS/LS segments are recovered whole and in order |
| `EthFrames.CutShape` | drivers/hal/stm32f7xx_hal_eth.c:701-754 | which segments carry FS and LS and which are full |
| `EthTxQueue.CutByIndex` | drivers/hal/stm32f7xx_hal_eth.c:701-747 | the division and the index arithmetic cut a frame into these segments |
| `EthTxQueue.LoopIsHandOver` | drivers/hal/stm32f7xx_hal_eth.c:725-754 | the interleaved steps of the loop add up to the driver function |
| `EthTxQueue.OutputIsTransmit` | middleware/conf/ethernetif.c:112-166 | entry, passes and end of the interleaved hand-over, undisturbed, are one call of HAL_ETH_TransmitFrame |
| `EthTxQueue.CopyKeeps` | middleware/conf/ethernetif.c:112-163 | copying a chunk touches no descriptor or buffer of the DMA |
| `EthTxQueue.HandKeeps` | drivers/hal/stm32f7xx_hal_eth.c:727-754 | handing a segment over extends the arc of the DMA by it |
| `EthTxQueue.SendKeeps` | drivers/hal/stm32f7xx_hal_eth.c:668-773 | sending shortens the arc by its oldest segment |
| `EthTxQueue.OwnedArcEndsAtTxDesc` | drivers/hal/stm32f7xx_hal_eth.c:668-773 | in every interleaving the DMA-owned descriptors are one arc ending just before TxDesc and carry the queued segments in order |
| `EthTxQueue.FramesLeaveInOrder` | middleware/conf/ethernetif.c:112-166 | what has left is, frame by frame and byte by byte, the beginning of what was accepted, and all of it once nothing is owned |
| `EthTxQueue.NothingIsStranded` | drivers/hal/stm32f7xx_hal_eth.c:756-763 | when the CPU rests the DMA is not left suspended with work: on its own it sends everything |
| `EthTxQueue.RoomAccepts` | middleware/conf/ethernetif.c:112-166 | a frame that finds its descriptors free is accepted, wherever the DMA comes in between, when its last chunk has been copied |
| `EthTxQueue.AcceptedIff` | middleware/conf/ethernetif.c:112-166 | an undisturbed call accepts its frame iff that is not empty and as many descriptors from TxDesc on are free as it has segments; otherwise the queue is as before |
| `EthTxQueue.OverwritesIffTooLong` | drivers/hal/stm32f7xx_hal_eth.c:689-754 | only the first descriptor is checked: some pass finds OWN set on the descriptor that it writes iff fewer descriptors are free than the frame has segments; if none does the arc grows by the frame |
| `EthRx.ScanRefinesSingleStep` | drivers/hal/stm32f7xx_hal_eth.c:781-938 | the bounded scan reaches the RxDesc, SegCount and FSRxDesc of iterated single steps, and on success also their LSRxDesc, length and buffer |
| `EthRx.OnlySingleStepClearsLast` | drivers/hal/stm32f7xx_hal_eth.c:828-835 | LSRxDesc is where they differ |
| `EthRx.ScanDelimitsFrame` | drivers/hal/stm32f7xx_hal_eth.c:861-938 | from anywhere inside an FS, middle*, LS run the scan ends on exactly that frame, or further inside it when its passes run out, so that calls resume |
| `EthRx.WholeFrameIsFound` | drivers/hal/stm32f7xx_hal_eth.c:861-938 | from SegCount 0 HAL_OK delimits exactly the frame, with SegCount its number of descriptors |
| `EthRx.ScanIsBounded` | drivers/hal/stm32f7xx_hal_eth.c:871-928 | without a last segment the scan ends after its bound, on a ring of any size and even if the CPU owns all of it |
| `EthRx.EthHandle.DescListInit` | drivers/hal/stm32f7xx_hal_eth.c:541-600 | all descriptors linked in a cycle and owned by the DMA |
| `EthRx.EthHandle.GetReceivedFrame` | drivers/hal/stm32f7xx_hal_eth.c:781-853 | one single step, HAL_OK iff it completes a frame |
| `EthRx.EthHandle.GetReceivedFrameIT` | drivers/hal/stm32f7xx_hal_eth.c:861-938 | the scan, HAL_OK iff it completes a frame |
| `EthRxQueue.ArriveKeeps` | drivers/hal/stm32f7xx_hal_eth.c:541-600 | the DMA writes behind the descriptors of the CPU |
| `EthRxQueue.LookKeeps` | drivers/hal/stm32f7xx_hal_eth.c:871-928 | a pass stays inside the oldest undelivered frame or delivers it |
| `EthRxQueue.ReleaseKeeps` | middleware/conf/ethernetif.c:233-244 | the release loop gives back exactly the descriptors of the frame |
| `EthRxQueue.GatherIsFrame` | middleware/conf/ethernetif.c:195-231 | the copy loop collects the frame from its buffers |
| `EthRxQueue.FramesArriveInOrder` | middleware/conf/ethernetif.c:186-255 | in every interleaving of DMA, scan and release the frames delivered are the first that arrived, in order, whole and without CRC, and all of them fit the ring |
| `EthRxQueue.NothingIsLost` | middleware/conf/ethernetif.c:186-255 | once the scan has caught up, all frames have been delivered |
| `EthRxQueue.LongFrameStopsReception` | drivers/hal/stm32f7xx_hal_eth.c:861-938 | under every schedule nothing is delivered from the first frame on that has more segments than the ring has descriptors |
| `EthRxQueue.AllArriveIfTheyFit` | middleware/conf/ethernetif.c:186-255 | if all frames fit, every run of effective steps is bounded, and at rest all frames have been delivered |
| `EthRxQueue.AllArriveUnderWatchdog` | drivers/hal/stm32f7xx_hal_eth.c:1618-1618 | with the receive watchdog, which cuts frames at 2048 bytes, that is so on every ring of two descriptors or more |
| `Counters.AlignedIffDivides` | common/pcbuffer.c:17-31 | alignment is that the size divides 2^32 |
| `Counters.WrapKeepsIndex` | common/pcbuffer.c:17-23 | then the wrap of a counter does not show in the index |
| `PcBuffer.EmptyIff` | common/pcbuffer.c:25-31 | empty and full mean an empty and a full queue |
| `PcBuffer.AddAppends` | common/pcbuffer.c:17-19 | adding to a buffer that is not full appends, through the wrap |
| `PcBuffer.RemoveTakesHead` | common/pcbuffer.c:21-23 | removing takes the oldest character |
| `PcBuffer.RetractDropsLast` | drivers/stm32_usart.c:152-153 | un-producing drops the newest character |
| `PcBuffer.FifoIffAligned` | common/pcbuffer.c:17-31 | adding always appends iff the size divides 2^32 |
| `PcBuffer.RefinesQueue` | common/pcbuffer.c:17-31 | for every sequence of guarded operations contents and output are those of a bounded queue |
| `PcBuffer.TakesLine` | common/pcbuffer.c:37-53 | a line and its terminator are taken together, whatever follows |
| `PcBuffer.Buffer.AddChar` | common/pcbuffer.c:17-19 | stores at produce_count modulo the size and advances the counter through its wrap |
| `PcBuffer.Buffer.RemoveChar` | common/pcbuffer.c:21-23 | returns the character at consume_count modulo the size and advances the counter |
| `PcBuffer.Buffer.IsEmpty` | common/pcbuffer.c:25-27 | true iff the queue is empty |
| `PcBuffer.Buffer.IsFull` | common/pcbuffer.c:29-31 | true iff the queue has as many characters as there are cells |
| `PcBuffer.Buffer.TakeLine` | common/pcbuffer.c:43-51 | the loop: how far it reads, whether it found a terminator, and every cell of the message |
| `PcBuffer.Buffer.GetMessage` | common/pcbuffer.c:37-53 | buffer, message, message count and result, with and without a terminator in reach |
| `Usart.Console.ReceiveChar` | drivers/stm32_usart.c:145-181 | what a received character does to queues, count, flags and enable |
| `Usart.Console.ServeTransmitter` | drivers/stm32_usart.c:184-189 | send the oldest, or disable the interrupt |
| `Usart.Console.IRQHandler` | drivers/stm32_usart.c:140-190 | receive, then transmit: queues, flags, enable and what goes out |
| `Usart.Console.Write` | common/retarget.c:23-35 | with nothing received meanwhile, all that was queued and all of data is sent, in order, before it returns |
| `LineReader.ReceivedQueue` | drivers/stm32_usart.c:145-181 | what any character does to the queue and to message_available, in any state |
| `LineReader.CharacterQueuedIff` | drivers/stm32_usart.c:151-174 | a character is queued iff it is no rubout (8, 127), the queue has room, neither it nor its predecessor is `[`, it is no ESC, and the one before last was no ESC; the newest is taken back iff it is a rubout |
| `LineReader.MessageCountedIff` | drivers/stm32_usart.c:151-174 | message_available is raised, room or not, iff a CR or LF passes the same filter and is not the second of a pair |
| `LineReader.KeysAfter` | drivers/stm32_usart.c:146-169 | the key history after any character, and that ESC `[` A and ESC `[` B raise their flags and nothing lowers one |
| `LineReader.ArrowKeyOnlyFlags` | drivers/stm32_usart.c:168-169 | an arrow key raises its flag and changes nothing else |
| `LineReader.ReadsAreFetch` | common/pcbuffer.c:37-53 | the steps of the reader, undisturbed, are one call of pc_buffer_getMessage |
| `LineReader.FindableIsTerminators` | common/pcbuffer.c:37-53 | repeated calls find one message for each CR and LF queued |
| `LineReader.CountKeptIff` | drivers/stm32_usart.c:151-174 | for every state and step, message_available stays the number of messages to be found iff no CR or LF is rubbed out, none that the handler counts meets a full buffer, none that it does not count (the second of a pair) finds room, and none is counted between the load and the store of the decrement of the reader |
| `LineReader.CountDrifts` | common/pcbuffer.c:37-53 | over every run it is off by the sum of these drifts, modulo 2^16 |
| `LineReader.CrLfStrandsLine` | common/pcbuffer.c:38-48 | after CR LF, a line and CR, two calls find two empty lines and the line is never fetched |
| `LineDiscipline.LinesComeBackEdited` | common/pcbuffer.c:37-53 | in every interleaving of typing, sending and the reader, character by character: the messages returned are the first edited lines, reader and queue hold the others, and message_available is their number less the LFs and counts that it missed |
| `LineDiscipline.FetchTakesLine` | common/pcbuffer.c:37-53 | a call finds a message iff the count is not zero, and then exactly the oldest line |
| `LineDiscipline.CallReturnsLine` | common/pcbuffer.c:37-53 | the steps of an undisturbed call add exactly that line to those returned |
| `UartTransmit.EchoAdds` | drivers/stm32_usart.c:156-179 | for every character: what the echo adds, and that it enables the transmitter iff it adds something, all of it in the case of a rubout |
| `UartTransmit.RuboutEcho` | drivers/stm32_usart.c:156-163 | the echo of a backspace enables the transmitter only if all three characters fit |
| `UartTransmit.InvStep` | common/retarget.c:23-35 | every step of writer and interrupt keeps the invariant |
| `UartTransmit.NothingIsStranded` | common/retarget.c:23-35 | a non-empty queue with TXEIE clear only while _write is between an add and its next enable; sent ++ queued == added |
| `UartTransmit.ReturnMeansSent` | common/retarget.c:32-35 | when _write returns everything added has been sent |
| `UartTransmit.EveryStepCounts` | common/retarget.c:23-35 | without reception every effective step decreases the measure |
| `UartTransmit.NeverStuck` | common/retarget.c:24-35 | neither wait loop waits with its interrupt disabled |
| `UartTransmit.WriteEnds` | common/retarget.c:23-35 | every run without reception comes to rest, and then the call has returned |
| `UartTransmit.WriteSendsData` | common/retarget.c:23-35 | in every interleaving without reception a call adds its data byte by byte in order, and returns when everything before it and then exactly its data has been sent |
| `UartTransmit.RuboutWaitsIff` | drivers/stm32_usart.c:151-164 | with the transmitter disabled, the echo of a backspace leaves it so iff fewer than three cells are free, on an idle console iff the queue has fewer than three |
| `Tokenizer.JoinSplit` | common/cli.c:26-35 | the arguments joined by single spaces are the line; leftover spaces only in the last, and only at MAX_ARGS |
| `Tokenizer.SplitIsUnique` | common/cli.c:26-35 | no other list of arguments has these properties |
| `Tokenizer.SplitCount` | common/cli.c:26-35 | one argument more than there are spaces, up to MAX_ARGS |
| `Tokenizer.StrLen` | common/cli.c:28-28 | the length of the C string |
| `Tokenizer.Tokenize` | common/cli.c:20-35 | the in-place cut: argument j is the C string at args[j] |
| `Tokenizer.CommandIndex` | common/cli.c:92-98 | the first command whose name is a prefix of the text, or -1 iff there is none |
| `Tokenizer.ReachableIff` | common/cli.c:92-98 | a command can be reached iff no earlier name is a prefix of its own |
| `SlidingWindows.CapMovesTowards` | common/badgerloop.c:235-244 | the stored value stays in int16, moves by at most the impulse and as far towards the sample as that allows |
| `SlidingWindows.StoredInRange` | common/badgerloop.c:235-244 | so every slot stays in int16 |
| `SlidingWindows.SumOfSlots` | drivers/stm32_adc.c:102-119 | the sum of the ring is the sum of the last samples |
| `SlidingWindows.SlidesBy` | drivers/stm32_adc.c:103-104 | the sum of the last samples changes by what comes in and what goes out |
| `SlidingWindows.SumChangesLittle` | common/badgerloop.c:235-247 | accelSum changes by at most ACCEL_IMPULSE per sample, for every history |
| `SlidingWindows.AccelBetween` | common/badgerloop.c:247-247 | the acceleration that is set lies between the bounds of the ten stored values, negated, when these have one sign |
| `SlidingWindows.MeanInBounds` | drivers/stm32_adc.c:110-119 | the result is the floor mean of the last 100 samples and lies between their minimum and maximum |
| `SlidingWindows.ResultIsMeanIff` | drivers/stm32_adc.c:97-119 | after N reads the result is the mean of the last 100 samples, for all ten-bit samples, iff N <= 2^32 or N mod 2^32 is 0 or at least 100 |
| `SlidingWindows.Accelerometer.Update` | common/badgerloop.c:232-247 | accelSum is the sum of the ten slots and of the last ten values stored; the acceleration is a tenth of it, cut towards zero, with the sign changed |
| `SlidingWindows.Channel.Read` | drivers/stm32_adc.c:97-119 | the result is the mean of the slots that the history has filled, and of the last 100 samples while the window is whole |

## Left out

General:

- A call of the main program is one step with respect to interrupts, so contention for a handle's
  lock between thread and handler does not occur, except where a module says that it interleaves
  statement by statement (`EthTxQueue`, `EthRxQueue`, `UartTransmit`, `LineReader`).
- Printing, messages to the dashboard, LEDs, networking above the rings, PHY and link handling,
  register set-up, the CLI commands and the command history on arrow keys.

The pod:

- The tick and the sensors are read once per dispatcher call. In the firmware they may move on
  within it.
- Direct actuation from the command line, `fault_message` and `bad_value`; a `state` command is a
  request from outside.
- PodDeadline.MustBrakeDeadline: assumes that the tick does not wrap during the run, that
  the dispatcher is called in every tick, and that the command line requests no state.
- How sensor values come about; stopping distance and braking thresholds are inputs.

I2C and DMA:

- I2cPolling.Master.WaitOnFlag: with HAL_MAX_DELAY the source waits for ever on a silent bus, so for
  that timeout it, and every call that waits with it, is proved for flags that change in the end.
- DmaStream.DmaHandle.PollForTransfer: the same for a stream that finishes in the end.
- Sequential transfers (their branches of the interrupt handler are there, but no transfer takes
  them), slave and listen modes, bus errors (the ER handler), the failing paths of the address phase
  of memory transfers in interrupt and DMA mode.
- I2cInterrupt.AtMostOneCallback: covers a user abort of master transfers only, as the driver does.
- The two stream handles of an I2C handle are modelled as the one in use; multi-buffer streams are
  not modelled.
- The array that pData points into is finite: a store behind its end is dropped (see `I2cAbort`).
- After a NACK the stream serves no request that the peripheral has already made.
- CR2 direction-bit changes during a reload: the direction is latched at START.

Ethernet:

- EthTxQueue.FramesLeaveInOrder: the payload of a frame is contiguous, where the interface layer
  copies a chain of buffers; frames fit the empty ring.
- EthRxQueue.FramesArriveInOrder: frames that fit the ring carry a CRC and suit the length field; a
  frame for which no memory can be allocated counts as delivered.
- A descriptor is read or handed over in one step: OWN is written last by either side.
- Receive-buffer-unavailable handling, checksums and time stamps.

Console:

- UartTransmit.NothingIsStranded: the echo of a received character fits the transmit queue and
  leaves the room that the writer has already tested; the unguarded newline after a carriage
  return and the race of the writer's test with the echo are outside.
- LineDiscipline.LinesComeBackEdited: every character that is kept finds room, and no terminator is
  rubbed out.
- In the reader the test for an empty buffer and the removal of a character are one step.
- Usart.Console.Write: nothing is received while it runs; `UartTransmit` has the interleavings.
- `_read`, the UDP target of `_write`, and failure of the allocation of a buffer.
- strncmp and strlen as such: a name matches if it is a prefix.

Windows:

- SlidingWindows.Accelerometer.Update: the sample counter does not overflow a signed integer.
- SlidingWindows.Channel.Read: one channel of one converter; the tables keep the channels apart.
- Interpolated velocity, the thermistor and the Kalman filter.
