# DW3000 driver: a verified model

This project models the concurrent core of the DW3000 ultra-wideband driver and proves
what it guarantees. The pieces, by file:

- `common.dfy`, `runs.dfy`: shared types, and lemmas about runs that hold whatever the
  steps are.
- `codec.dfy`: SPI transaction headers, little-endian register values, byte memory.
- `spi_bus.dfy`, `bus_invariant.dfy`, `bus_steps.dfy`, `bus_results.dfy`,
  `bus_theorems.dfy`, `bus_serial.dfy`, `bus_progress.dfy`, `bus_expiry.dfy`,
  `bus_failure.dfy`: the shared SPI bus as a step system (task program counters, the bus
  semaphore and the wake-up semaphores, the transfer in flight byte by byte, chip selects,
  scratch buffers, the completion callback, the chips), its invariant, and the theorems
  about every run: atomicity, answers, bus safety, transaction closing, deadlock freedom,
  termination, waits that time out and a refused transfer.
- `hal_transfer.dfy`: the four transfer routines, the dispatch between them and the
  register access on top, as imperative code on arrays.
- `register_bits.dfy`, `mac_device.dfy`: the interrupt handler and the calls around it, as
  methods that change status bits, mask, pointers, semaphore and control flags.
- `status_drain.dfy`, `pair_frames.dfy`, `device_runs.dfy`, `sys_mask.dfy`: how many handler
  runs clear the status, in both buffer modes; frames taken from the buffer pair; the
  receiver and the interrupt mask over any run of calls, handler runs and chip events.
- `irq_delivery.dfy`, `tx_semaphore.dfy`, `tx_count.dfy`, `double_buffer.dfy`,
  `buffer_overrun.dfy`: step systems for interrupt delivery, the transmit semaphore and the
  receive buffer pair, with the chip as a nondeterministic environment.
- `tx_handler.dfy`, `buffer_handler.dfy`: the handlers and calls of the last two, run
  without interruption, do what those of `mac_device.dfy` do, and which frame is handed over.
- `tx_air.dfy`, `buffer_status.dfy`: over any run, when a transmission is under way and its
  end reported, and when the receiver is on and a receive event stands.
- `rx_window.dfy`, `sys_cfg.dfy`: the re-arming receive window and the SYS_CFG setters.
- `trace_ring.dfy`, `trace_merge.dfy`, `airtime.dfy`: the backtrace ring, the merged
  listing, and frame durations in exact arithmetic.

## How to read the model

Registers in the handler and setter modules are sets of the positions of their one bits;
SYS_STATUS and SYS_MASK share their bit positions (`dw3000_regs.h`). Times, counters and
lengths are unbounded integers, and every width that matters is written out: the 40-bit
clock and its masked subtraction, the 16-bit ring index, the 16-bit durations, the 7- and
15-bit subaddress fields.

Assumptions of the bus model: an SPI transfer that is started is also completed and its
start succeeds; a non-blocking access has a positive length (`dw3000_read`,
`dw3000_read_reg`, `dw3000_write` and `dw3000_write_reg` only choose it for lengths that
are); the buffer of a long write is left alone until the write is over; waits use
`DPL_TIMEOUT_NEVER`, except in `bus_expiry.dfy`. What happens when the start of a long
read's command is refused is in `bus_failure.dfy`. Reading a semaphore's count and releasing
it are two steps wherever a task or the handler does the two, here and in
`tx_semaphore.dfy`; the completion callback runs in an interrupt and is one. The branch of
the HAL for MYNEWT is modelled. Fields named log, trains, results, ticket, hold
(`spi_bus.dfy`), muted (`irq_delivery.dfy`) and past, id, readId (`double_buffer.dfy`) are
history: no step depends on them.

Assumptions about the chip in `double_buffer.dfy`: a good frame goes to the buffer the
receive-side pointer selects, is marked unread and toggles that pointer; the host sees RXFCG
while its own buffer is unread; if no buffer is free RXOVRR goes up before anything is
overwritten, after which the buffer may be overwritten arbitrarily and the pointer may
toggle; a buffer becomes free when the host pointer leaves it, and both do when the
good-frame flags are cleared with the transceiver off; a receiver reset switches the
receiver off even where no TRXOFF is written (`dw1000_mac.c:1753-1757`). The two checks
stated there (`Risky`, `RiskyStart`) are about the registers at the moment of the write they
guard: a driver would read them in an SPI access before, and RXOVRR can come up in between.
In `mac_device.dfy` and `device_runs.dfy` the frame flags are those of the buffer the host
pointer selects, and the chip stops its receiver only with a frame, timeout or error to
report, and not for a good frame where double buffering uses the hardware's own re-enable.
In `tx_semaphore.dfy` writing RXENAB does not disturb a transmission, writing TRXOFF ends
it. In `rx_window.dfy` the hardware timeout counts from the moment the receiver is switched
on, which is not the one the driver computes it for (`dw1000_mac.c:1516`, 1629, 1718), and a
value written after that applies to the count under way; where nothing is received
(`RunOut`) that delay is part of how late an expiry is served.

Where the code does not keep what it is meant to keep, the exact condition is proved:

- A wait with a finite timeout that expires reads the count of the bus semaphore it never
  got and releases it when that is zero (`dw1000_hal.c:698-701`). Over any run with any
  number of such waits the bus stays safe as long as none of them reads zero, and every
  such read leads, on some way on, to a second release or to a transfer under another
  one (`BusExpiry.ExpiryHarmsIff`); `BusExpiry.ExpiryRace` is a run with two selects low
  at once.
- When the SPI hardware refuses the command of a long read, the call frees the bus with the
  device still selected and its wake-up semaphore taken (`dw1000_hal.c:446-448`;
  `BusFailure.RefusalLeavesSelected`). The next short non-blocking write to the device then
  loses the bus for good (`BusFailure.RefusalHangsBus`).
- `dw3000_phy_forcetrxoff` reads SYS_MASK before it takes the mutex. Updates made in
  between survive exactly when they leave the mask as it was read
  (`SysMask.UpdatesSurviveIff`).
- The handler's timeout and error branches write TRXOFF without releasing the transmit
  semaphore. `TxSemaphore.StepSafeIff` says when a step strands it; `HandlerStrands` is such
  a run: a receive timeout left over from before the transmission in the same snapshot as
  TXFRB.
- Several places read the transmit semaphore's count and release it, without a lock. The
  count can come to two exactly after a test that reads zero while somebody else has read
  the same zero or is inside `dw3000_start_tx` or `dw3000_tx_wait` with the semaphore, or
  after a delayed start that is called off with `sleep_after_tx` set
  (`TxCount.CountExceedsIff`); with those two calls and each test with its release atomic,
  only after the last (`TxCount.BinaryIfAtomic`). `TxSemaphore.BothRelease`,
  `WaitOverfills` and `CalledOffOverfills` are runs of the three kinds.
- The error branch clears every receive error, RXOVRR included, also when the overrun came
  up after the last check (`dw1000_mac.c:1751`). `BufferOverrun.WipeSpoilsIff` says exactly
  after which of these clears some continuation delivers frames out of order or damaged
  with `overrun_error` clear. What the driver could check before the clear is
  `DoubleBuffer.Risky`: RXOVRR is up, a frame waits in the host's buffer and, when
  `overrun_error` is set, another in the other buffer. Without a clear in that situation
  nothing goes wrong in any run (`DoubleBuffer.DeliveredInOrder`), and no weaker check of
  these registers does (`DoubleBuffer.RiskyIffMayHarm`, `BufferOverrun.RiskyCanHarm`).
  `BufferOverrun.OverrunReorders` leads there from the start of reception. The same holds
  of `dw3000_start_rx` between two handler runs, which brings the pointers together
  (`BufferOverrun.StartSpoilsIff`, `DoubleBuffer.RiskyStart`): without `trxoff_enable` it
  must not be called while RXOVRR is up, the pointers differ and the buffer the chip is at
  is free.
- Within the last 65536 clock units before the end of the receive window the timeout is
  computed as zero, which switches it off (`RxWindow.DisabledIff`): after a frame in that
  unit no timeout closes the window any more (`RxWindow.OffInLastUnit`,
  `RxWindow.StaysOpen`).
- A high pin waits for nobody exactly when the interrupt routine served it while the device
  was marked asleep, no event was queued then and no handler was still to look at it
  (`IrqDelivery.LossHasOneCause`, over runs).
- The ring walk shows the newest entries exactly when the ring's length divides 65536
  (`TraceRing.WalkIsNewestIff`).
- The driver counts one parity block too many when the payload fills its blocks
  (`Airtime.SurplusBlock`).

## Model

| member | source | states |
|---|---|---|
| `Codec.DecodeEncode` | hw/drivers/uwb/uwb_dw3000-c0/src/dw1000_dev.c:70-87 | a decoder for the 1-, 2- or 3-byte header gets operation, register and subaddress back as soon as the last header byte is in, and nothing earlier |
| `Codec.PrefixFree` | hw/drivers/uwb/uwb_dw3000-c0/src/dw1000_dev.c:70-87 | no header is a prefix of a different one |
| `Codec.NoShorterHeader` | hw/drivers/uwb/uwb_dw3000-c0/src/dw1000_dev.c:70-87 | no byte sequence that the chip takes for the same header is shorter than the driver's |
| `Codec.AddrInjective` | hw/drivers/uwb/uwb_dw3000-c0/src/dw1000_dev.c:70-87 | different bytes, by register file and offset, have different addresses |
| `Codec.StoreIntoFile` | hw/drivers/uwb/uwb_dw3000-c0/src/dw1000_dev.c:113-145 | a store into a register file changes the bytes it covers there, and no byte of any other file |
| `Codec.FromToBytes` | hw/drivers/uwb/uwb_dw3000-c0/src/dw1000_dev.c:206-209 | the first n bytes of a register value, read back, are the value modulo 2^(8n) |
| `BusTheorems.RegisterFileIsAtomic` | hw/drivers/uwb/uwb_dw3000-c0/src/dw1000_hal.c:297-679 | in every state of every interleaving, each read begun is pending or answered exactly once, by its own task, with the bytes of the memory that running the accesses one by one in bus order gives, and every unselected device holds that memory |
| `BusSerial.ReadsLastWritten` | hw/drivers/uwb/uwb_dw3000-c0/src/dw1000_hal.c:297-679 | in every state of every run, each byte of an answer is the one put there by the last write before that read, in bus order, that covers this byte of this register file of this device, or the initial one if there is none |
| `BusSerial.LeavesLastWritten` | hw/drivers/uwb/uwb_dw3000-c0/src/dw1000_hal.c:297-679 | while the bus is free every byte of every register file is the one its last write put there |
| `BusResults.EveryReadAnswered` | hw/drivers/uwb/uwb_dw3000-c0/src/dw1000_hal.c:382-513 | in every state of every run the answers on record are those of the reads that are over, one each, under the ticket of the access and the task that made it |
| `BusTheorems.BusIsSafe` | hw/drivers/uwb/uwb_dw3000-c0/src/dw1000_hal.c:353-509 | semaphores stay binary, at most one select is low, a free bus has no transfer in flight and all selects high, the callback argument is the instance whose transfer is in flight, and every transfer has exactly the length that scratch buffer and DMA limit call for |
| `BusTheorems.OneTrainPerAccess` | hw/drivers/uwb/uwb_dw3000-c0/src/dw1000_hal.c:403-508 | between a select going low and high exactly the header and then the payload of one access is clocked, access after access in bus order |
| `BusTheorems.CompletionEffect` | hw/drivers/uwb/uwb_dw3000-c0/src/dw1000_hal.c:353-369 | a completion before the end only wakes the issuing task; the last one of a non-blocking write or long read raises the select and frees the bus |
| `BusTheorems.WhoRaises` | hw/drivers/uwb/uwb_dw3000-c0/src/dw1000_hal.c:353-369 | a select is only raised when the whole frame is out, by the callback or by the issuing task, depending on the access |
| `BusProgress.DeadlockFree` | hw/drivers/uwb/uwb_dw3000-c0/src/dw1000_hal.c:437-509 | in every reachable state with an unfinished task some step is possible |
| `BusProgress.RunsAreBounded` | hw/drivers/uwb/uwb_dw3000-c0/src/dw1000_hal.c:297-679 | every run is finite: each step uses up part of a budget fixed by the programs |
| `BusProgress.RunInOrder` | hw/drivers/uwb/uwb_dw3000-c0/src/dw1000_hal.c:390-394 | each task's accesses take the bus in program order |
| `BusProgress.MaximalRunsFinish` | hw/drivers/uwb/uwb_dw3000-c0/src/dw1000_hal.c:297-679 | a run that cannot go on has carried out every access of every task once, answered every read exactly once, and left the memories of the serial execution |
| `BusExpiry.ExpiryHarmsIff` | hw/drivers/uwb/uwb_dw3000-c0/src/dw1000_hal.c:689-703 | over every run in which waits may time out, the bus is safe as long as no expired wait has read the count as zero; and when one is about to read it, some continuation breaks the bus exactly if it reads zero |
| `BusExpiry.ExpiryRace` | hw/drivers/uwb/uwb_dw3000-c0/src/dw1000_hal.c:689-703 | a run in which an expired wait reads zero, releases, and two selects go low |
| `BusFailure.RefusalLeavesSelected` | hw/drivers/uwb/uwb_dw3000-c0/src/dw1000_hal.c:446-448 | whenever the command of a long read is refused the bus is free with the device selected and its wake-up semaphore taken |
| `BusFailure.RefusalSelectsTwo` | hw/drivers/uwb/uwb_dw3000-c0/src/dw1000_hal.c:446-448 | the next blocking access to another device then runs with both selected |
| `BusFailure.RefusalHangsBus` | hw/drivers/uwb/uwb_dw3000-c0/src/dw1000_hal.c:358-362 | if the next access is a short non-blocking write to that device, by whichever task, its completion only puts the wake-up semaphore back: the bus stays taken and no step is possible any more |
| `BusFailure.ReachesCommand` | hw/drivers/uwb/uwb_dw3000-c0/src/dw1000_hal.c:437-448 | a run that leads to such a refusal with another task ready |
| `HalTransfer.ChunksPartition` | hw/drivers/uwb/uwb_dw3000-c0/src/dw1000_hal.c:464-495 | for every length and positive step the pieces cover the payload without gap or overlap |
| `HalTransfer.Hal.Read` | hw/drivers/uwb/uwb_dw3000-c0/src/dw1000_hal.c:297-343 | the blocking loop fills exactly the first bytes of the buffer with the register bytes, changes no register, and cuts the payload into the pieces |
| `HalTransfer.Hal.ReadNoblock` | hw/drivers/uwb/uwb_dw3000-c0/src/dw1000_hal.c:382-513 | same result through the scratch buffer or the chunk loop with the semaphore hand-over, both semaphores as before at the end |
| `HalTransfer.Hal.Write` | hw/drivers/uwb/uwb_dw3000-c0/src/dw1000_hal.c:526-566 | the register memory is changed by exactly the payload |
| `HalTransfer.Hal.WriteNoblock` | hw/drivers/uwb/uwb_dw3000-c0/src/dw1000_hal.c:579-679 | same effect through the scratch buffer or the chunk loop |
| `HalTransfer.Hal.ReadRegister` | hw/drivers/uwb/uwb_dw3000-c0/src/dw1000_dev.c:67-100 | the buffer is the same whichever routine carries the read; apart from a header on its own no transfer is longer than the scratch buffer or the DMA limit, and every piece but the last is as long as one of the two |
| `HalTransfer.Hal.WriteRegister` | hw/drivers/uwb/uwb_dw3000-c0/src/dw1000_dev.c:113-145 | the memory is the same whichever routine carries the write; the transfers of every write that goes out non-blocking keep to both lengths, and all pieces but the last reach one of them |
| `HalTransfer.Hal.ReadReg` | hw/drivers/uwb/uwb_dw3000-c0/src/dw1000_dev.c:155-193 | the value is the little-endian number of the n register bytes |
| `HalTransfer.Hal.WriteReg` | hw/drivers/uwb/uwb_dw3000-c0/src/dw1000_dev.c:203-239 | the n low bytes of the value are stored, nothing else changes |
| `HalTransfer.Hal.WriteThenRead` | hw/drivers/uwb/uwb_dw3000-c0/src/dw1000_dev.c:155-239 | reading back gives the value modulo 2^(8n); every byte of another register file, and of this one outside the n bytes, is as before |
| `HalTransfer.StoredValue` | hw/drivers/uwb/uwb_dw3000-c0/src/dw1000_dev.c:155-239 | the same round trip on plain byte memory, for every length |
| `IrqDelivery.NoLostInterrupt` | hw/drivers/uwb/uwb_dw3000-c0/src/dw1000_mac.c:1807-1816 | over every run, while no handler runs and the pin is high, an event is queued or the interrupt routine is due, unless the rise met a sleeping device |
| `IrqDelivery.LossHasOneCause` | hw/drivers/uwb/uwb_dw3000-c0/src/dw1000_mac.c:1389-1397 | over every run, a high pin has no event, edge or handler coming exactly when the routine served it while the device was marked asleep, no event was queued and no handler was still to sample the pin, and it is high ever since |
| `IrqDelivery.QueuedIff` | hw/drivers/uwb/uwb_dw3000-c0/src/dw1000_mac.c:1807-1816 | over every run, an event is queued exactly when since the last dispatch the routine ran while awake or a handler left that had found the pin high |
| `IrqDelivery.FoundWhatWas` | hw/drivers/uwb/uwb_dw3000-c0/src/dw1000_mac.c:1807-1816 | what a leaving handler has found is what the pin was when it looked, after its work |
| `IrqDelivery.EdgeIff` | hw/drivers/uwb/uwb_dw3000-c0/src/dw1000_mac.c:1389-1397 | over every run, the interrupt routine is due exactly when the pin has risen since it last ran |
| `IrqDelivery.RestsWithoutRise` | hw/drivers/uwb/uwb_dw3000-c0/src/dw1000_mac.c:1807-1816 | from low pin, empty queue and no handler, a run without a rise stays there |
| `IrqDelivery.HandlerAlone` | hw/drivers/uwb/uwb_dw3000-c0/src/dw1000_mac.c:1807-1816 | a handler that nothing disturbs ends, and leaves an event queued exactly when the pin is high |
| `IrqDelivery.MutedStaysLost` | hw/drivers/uwb/uwb_dw3000-c0/src/dw1000_mac.c:1389-1397 | a high pin that nobody announced stays unannounced whatever status bits the chip adds |
| `IrqDelivery.LostWhileAsleep` | hw/drivers/uwb/uwb_dw3000-c0/src/dw1000_mac.c:1389-1397 | a run in which a rise while asleep is lost |
| `MacDevice.Device.InterruptHandler` | hw/drivers/uwb/uwb_dw3000-c0/src/dw1000_mac.c:1442-1829 | one handler run: which status bits are left, mask restored, transmit semaphore released exactly when the transmission is taken for over, host pointer aligned by the overrun branches and toggled by a taken frame, receive window and one-shot disable kept or given up, receiver on or off |
| `MacDevice.Device.ClearFrameBits` | hw/drivers/uwb/uwb_dw3000-c0/src/dw1000_mac.c:1588-1595 | the flags are cleared and the one-byte save of the mask restores the whole mask |
| `MacDevice.Device.PhyForceTrxOff` | hw/drivers/uwb/uwb_dw3000-c0/src/dw1000_phy.c:372-419 | mask unchanged, events forgotten, pointers aligned in double-buffer mode, semaphore free |
| `DeviceRuns.ExecuteAll` | hw/drivers/uwb/uwb_dw3000-c0/src/dw1000_mac.c:1442-1829 | any run of calls, handler runs and chip events takes the device where the transition function of its image says |
| `DeviceRuns.ReceiverOnIff` | hw/drivers/uwb/uwb_dw3000-c0/src/dw1000_mac.c:1510-1520 | over every run in which the chip stops its receiver again and again: it is on only if the driver has started it and not retired since, and, unless a receive event is still to be served, exactly then |
| `DeviceRuns.GoesOffOnlyBy` | hw/drivers/uwb/uwb_dw3000-c0/src/dw1000_mac.c:1706-1741 | a receiver that was on and is off with no event left to serve was last retired by stop-rx, force-off, a delayed start that came too late, a start of transmission that switches the radio off, the end of the window, or a good frame with the one-shot disable or an acknowledgement, and not started since |
| `DeviceRuns.ResumesIff` | hw/drivers/uwb/uwb_dw3000-c0/src/dw1000_mac.c:1626-1632 | after a handler run that serves what stopped the receiver, over any run before it, the receiver is on exactly when an error or overrun made the driver start afresh, a timeout left time in an open window, a good frame came without one-shot disable and acknowledgement, or a frame was sent inside an open window |
| `DeviceRuns.OneShotKeepsOff` | hw/drivers/uwb/uwb_dw3000-c0/src/dw1000_mac.c:823-833 | the one-shot disable keeps the receiver off after the next good frame and is spent by it |
| `StatusDrain.OneRun` | hw/drivers/uwb/uwb_dw3000-c0/src/dw1000_mac.c:1496-1805 | exactly which enabled bits one handler run leaves, in either buffer mode, while the chip is quiet and the other buffer of the pair is empty |
| `StatusDrain.Drained` | hw/drivers/uwb/uwb_dw3000-c0/src/dw1000_mac.c:1377-1379 | two or more runs clear every enabled bit of every snapshot except an RXDFR without RXFCG, which no number of runs clears |
| `StatusDrain.OneRunSuffices` | hw/drivers/uwb/uwb_dw3000-c0/src/dw1000_mac.c:1496-1508 | a second run is needed exactly when the overrun exit met LDEERR or CPLOCK |
| `StatusDrain.PinLowAfterTwo` | hw/drivers/uwb/uwb_dw3000-c0/src/dw1000_mac.c:1807-1816 | the pin that the exit check reads is high after two runs only for an enabled RXDFR standing alone |
| `StatusDrain.DoneFlagLeft` | hw/drivers/uwb/uwb_dw3000-c0/src/dw1000_mac.c:1623-1627 | in single-buffer mode LDEDONE goes with its frame, and is set afterwards exactly if the chip set it anew meanwhile |
| `StatusDrain.ExitFlagsLeft` | hw/drivers/uwb/uwb_dw3000-c0/src/dw1000_mac.c:1500-1507 | the overrun exit leaves none of the frame's flags and no RXOVRR |
| `StatusDrain.AckFlagLeft` | hw/drivers/uwb/uwb_dw3000-c0/src/dw1000_mac.c:1555-1570 | AAT is left exactly when it was set or came up, no transmission is reported sent and no frame came that asked for no acknowledgement |
| `PairFrames.FlagsLeft` | hw/drivers/uwb/uwb_dw3000-c0/src/dw1000_mac.c:1583-1598 | after a run that takes a frame from the pair, LDEDONE, RXDFR and RXFCG are set exactly if the other buffer shows them, or the chip set them while the frame was read and the snapshot had them not |
| `PairFrames.ErrorFlagLeft` | hw/drivers/uwb/uwb_dw3000-c0/src/dw1000_mac.c:1583-1598 | RXFCE likewise, and never when the snapshot shows any receive error |
| `PairFrames.HostAfter` | hw/drivers/uwb/uwb_dw3000-c0/src/dw1000_mac.c:1496-1765 | where the host pointer is after any run, from the status bits and the chip's late ones |
| `PairFrames.PairKeepsUp` | hw/drivers/uwb/uwb_dw3000-c0/src/dw1000_mac.c:1576-1607 | however many frames come in one at a time, after each run both pointers are at the next buffer and no enabled bit is left |
| `SysMask.MaskIsFolded` | hw/drivers/uwb/uwb_dw3000-c0/src/dw1000_mac.c:781-785 | after any run of calls and handler runs the mask is the fold of the interrupt-mask updates alone |
| `SysMask.EachBitLastUpdateWins` | hw/drivers/uwb/uwb_dw3000-c0/src/dw1000_phy.c:439-463 | each bit of that fold is what the last update naming it says |
| `SysMask.UnnamedBitStays` | hw/drivers/uwb/uwb_dw3000-c0/src/dw1000_phy.c:439-463 | a bit that no update names is what it was |
| `SysMask.ForceTrxOffPreempted` | hw/drivers/uwb/uwb_dw3000-c0/src/dw1000_phy.c:376-398 | force-off preempted between its mask read and its lock writes the old mask back |
| `SysMask.UpdatesSurviveIff` | hw/drivers/uwb/uwb_dw3000-c0/src/dw1000_phy.c:376-398 | the updates made in that gap survive exactly when each bit's last update agrees with the mask read before |
| `SysMask.GapLosesAnUpdate` | hw/drivers/uwb/uwb_dw3000-c0/src/dw1000_phy.c:376-398 | a device on which force-off, preempted while RXFCG is enabled, leaves it disabled |
| `TxSemaphore.StepSafeIff` | hw/drivers/uwb/uwb_dw3000-c0/src/dw1000_mac.c:584-663 | with count, calls under way and tests that read zero making one token at most, and the semaphore taken only while the chip transmits, the end is reported or a release or start is due: a step keeps that exactly when it neither crowds the semaphore (a test reads zero beside another token, a called-off start is to release twice) nor cuts off an outstanding transmission |
| `TxSemaphore.RunSafeIff` | hw/drivers/uwb/uwb_dw3000-c0/src/dw1000_mac.c:1486-1697 | the same for whole runs of chip, handler, starts, waits, wake-ups and force-offs |
| `TxCount.CountExceedsIff` | hw/drivers/uwb/uwb_dw3000-c0/src/dw1000_mac.c:1486-1493 | after a step some continuation, without any further crowding, brings the count to two exactly when the step crowded the semaphore |
| `TxCount.CountStaysBinary` | hw/drivers/uwb/uwb_dw3000-c0/src/dw1000_mac.c:1486-1697 | over every run from an idle start in which no step crowds the semaphore its count stays at most one |
| `TxCount.TestExceedsIff` | hw/drivers/uwb/uwb_dw3000-c0/src/dw1000_phy.c:413-418 | outside `dw3000_start_tx` and `dw3000_tx_wait`, a test that reads zero lets the count exceed one exactly when another has read the same zero and not released |
| `TxCount.BinaryIfAtomic` | hw/drivers/uwb/uwb_dw3000-c0/src/dw1000_mac.c:584-663 | with those calls and each test with its release atomic, and no start called off before sleep, the count stays at most one over every run |
| `TxSemaphore.HandlerRunFrees` | hw/drivers/uwb/uwb_dw3000-c0/src/dw1000_mac.c:1486-1493 | a handler run that starts with the end of a transmission reported, or with none under way, frees the semaphore before it ends, whatever chip and tasks do in between |
| `TxSemaphore.HandlerStrands` | hw/drivers/uwb/uwb_dw3000-c0/src/dw1000_mac.c:1724-1727 | a run in which the handler aborts a transmission and leaves the semaphore taken with nothing pending |
| `TxSemaphore.WaitOverfills` | hw/drivers/uwb/uwb_dw3000-c0/src/dw1000_mac.c:654-663 | with the wait cut between its two calls a handler run brings the count to two |
| `TxSemaphore.BothRelease` | hw/drivers/uwb/uwb_dw3000-c0/src/dw1000_phy.c:413-418 | a run in which force-off and the handler both read zero and both release |
| `TxSemaphore.CalledOffOverfills` | hw/drivers/uwb/uwb_dw3000-c0/src/dw1000_mac.c:611-636 | a delayed start that is called off before sleep releases twice |
| `TxAir.AirIff` | hw/drivers/uwb/uwb_dw3000-c0/src/dw1000_mac.c:1496-1778 | over every run of chip, handler and tasks, a transmission is under way exactly when one was started and since then none was sent, failed, called off, or cut off by force-off, stop-rx, start-rx with TRXOFF, an overrun, the end of the window or an error |
| `TxAir.SentIff` | hw/drivers/uwb/uwb_dw3000-c0/src/dw1000_mac.c:1653-1695 | over every run, TXFRS is set exactly when the chip has reported a transmission sent and since then neither the handler, force-off, stop-rx nor a new start has dropped it |
| `TxHandler.HandlerIsOnePiece` | hw/drivers/uwb/uwb_dw3000-c0/src/dw1000_mac.c:1467-1778 | the handler's steps, undisturbed but for an overrun that comes up during the readout, leave the status bits and the semaphore as the interrupt handler does, and cut off a transmission exactly at an overrun with a good frame, a timeout that ends the window, or an error other than the double-buffer overrun |
| `TxHandler.ForceOffIsOnePiece` | hw/drivers/uwb/uwb_dw3000-c0/src/dw1000_phy.c:376-418 | the steps of force-off, undisturbed, clear its status bits, end a transmission and leave the semaphore free |
| `TxHandler.StartIsOnePiece` | hw/drivers/uwb/uwb_dw3000-c0/src/dw1000_mac.c:584-636 | the steps of a start, undisturbed, make the releases the call makes |
| `TxHandler.StopIsOnePiece` | hw/drivers/uwb/uwb_dw3000-c0/src/dw1000_mac.c:770-795 | stopping reception clears its status bits, transmit flags included, and leaves the semaphore alone |
| `DoubleBuffer.StepInvIff` | hw/drivers/uwb/uwb_dw3000-c0/src/dw1000_mac.c:1496-1778 | a step of chip, handler or start of reception keeps buffers, pointers and deliveries in step exactly when it neither clears an overrun whose recovery is still needed nor starts reception into its way |
| `BufferOverrun.WipeSpoilsIff` | hw/drivers/uwb/uwb_dw3000-c0/src/dw1000_mac.c:1743-1769 | after the clearing of the error flags some continuation, without a further one that harms, delivers unmarked frames out of order or damaged exactly when the clear was of that kind |
| `DoubleBuffer.RiskyIffMayHarm` | hw/drivers/uwb/uwb_dw3000-c0/src/dw1000_mac.c:1751 | the check of RXOVRR, good-frame flags and `overrun_error` holds back exactly the clears that harm in some state with these registers |
| `BufferOverrun.RiskyCanHarm` | hw/drivers/uwb/uwb_dw3000-c0/src/dw1000_mac.c:1751 | while the receiver is on the chip alone can make any clear that the check holds back one that harms |
| `BufferOverrun.OverrunReorders` | hw/drivers/uwb/uwb_dw3000-c0/src/dw1000_mac.c:1751-1763 | from every start of reception, with and without `overrun_error` on record, a run leads through such a clear to deliveries out of order or damaged |
| `BufferOverrun.StartSpoilsIff` | hw/drivers/uwb/uwb_dw3000-c0/src/dw1000_mac.c:700-737 | after `dw3000_start_rx` between two handler runs some continuation delivers out of order or damaged exactly when the radio was not forced to idle and the chip was writing under an overrun to a free buffer the host was not at |
| `DoubleBuffer.RiskyStartIffMayHarm` | hw/drivers/uwb/uwb_dw3000-c0/src/dw1000_mac.c:717-737 | the check of RXOVRR, pointers and good-frame flag holds back exactly the starts that harm in some state with these registers |
| `BufferOverrun.StartReorders` | hw/drivers/uwb/uwb_dw3000-c0/src/dw1000_mac.c:717-737 | from every start of reception a run leads to such a start |
| `DoubleBuffer.DeliveredInOrder` | hw/drivers/uwb/uwb_dw3000-c0/src/dw1000_mac.c:1576-1642 | over every run, with any number of starts of reception and re-enables, in which the error flags are not cleared and reception is not started against those checks, the frames delivered with `overrun_error` clear are whole, in reception order, and none comes twice |
| `DoubleBuffer.QueueUntilOverrun` | hw/drivers/uwb/uwb_dw3000-c0/src/dw1000_mac.c:1576-1642 | until RXOVRR first comes up, or a start of reception leaves a buffer unread, what is delivered is exactly the front of what was received |
| `DoubleBuffer.CheckedIsDelivered` | hw/drivers/uwb/uwb_dw3000-c0/src/dw1000_mac.c:1583-1642 | over every run, a frame that has been read is delivered before the handler ends: with `overrun_error` set if an overrun came up during its readout, without it otherwise |
| `DoubleBuffer.PointersTrackParity` | hw/drivers/uwb/uwb_dw3000-c0/src/dw1000_mac.c:1420-1425 | over every such run, outside recovery and with RXOVRR down, the pointers are equal exactly when an even number of buffers is unread |
| `DoubleBuffer.RestartsAligned` | hw/drivers/uwb/uwb_dw3000-c0/src/dw1000_mac.c:1753-1765 | every overrun branch switches the receiver back on with equal pointers |
| `BufferHandler.HandlerDelivers` | hw/drivers/uwb/uwb_dw3000-c0/src/dw1000_mac.c:1496-1642 | the handler's steps, undisturbed but for an overrun that comes up during the readout, hand over the frame in the host's buffer exactly once, with its length and as many bytes as the driver's buffer takes, marked exactly if that overrun came; and none if there was no frame or an overrun before |
| `BufferHandler.HandlerIsOnePiece` | hw/drivers/uwb/uwb_dw3000-c0/src/dw1000_mac.c:1443-1805 | such a run leaves status bits, buffer pointers and receiver as the interrupt handler does |
| `BufferStatus.ReceiverIff` | hw/drivers/uwb/uwb_dw3000-c0/src/dw1000_mac.c:1500-1778 | over every run of chip, handler and starts of reception, the receiver is on exactly when it was turned on and not off since |
| `BufferStatus.OverrunIff` | hw/drivers/uwb/uwb_dw3000-c0/src/dw1000_mac.c:1500-1765 | over every run, RXOVRR is up exactly when an overrun was flagged since the handler's overrun branches, its check or its clear of the errors last took it down |
| `RxWindow.TimeoutValue` | hw/drivers/uwb/uwb_dw3000-c0/src/dw1000_mac.c:907-921 | on the wrapping clock the programmed timeout is the remaining whole units, at most 0xFFFF, and one unit once the end has passed |
| `RxWindow.TimeoutWithinWindow` | hw/drivers/uwb/uwb_dw3000-c0/src/dw1000_mac.c:907-921 | an armed timeout never passes an end that lies less than half a period ahead, and falls short by less than a unit unless it is the longest |
| `RxWindow.DisabledIff` | hw/drivers/uwb/uwb_dw3000-c0/src/dw1000_mac.c:907-929 | zero, which disables the timeout, is computed exactly within the last unit |
| `RxWindow.Receiver.Open` | hw/drivers/uwb/uwb_dw3000-c0/src/dw1000_mac.c:943-955 | opening a window arms a timeout inside it, or none for a window under one unit |
| `RxWindow.Receiver.Update` | hw/drivers/uwb/uwb_dw3000-c0/src/dw1000_mac.c:923-929 | re-arming after a frame stays inside the window |
| `RxWindow.Receiver.Expired` | hw/drivers/uwb/uwb_dw3000-c0/src/dw1000_mac.c:1706-1735 | an expiry re-arms exactly when two whole units are left, and closes the window otherwise |
| `RxWindow.RunOut` | hw/drivers/uwb/uwb_dw3000-c0/src/dw1000_mac.c:1706-1741 | without reception the window closes after at most 129 arms and less than two units early, however late each expiry is served within half a period |
| `RxWindow.LongestWindow` | hw/drivers/uwb/uwb_dw3000-c0/src/dw1000_mac.c:907-921 | a receiver whose window takes 129 arms |
| `RxWindow.ServeAll` | hw/drivers/uwb/uwb_dw3000-c0/src/dw1000_mac.c:923-929 | a window with frames, errors and expiries in any order, the timeout counting from the moment the receiver is switched on, follows the stated rules |
| `RxWindow.OffInLastUnit` | hw/drivers/uwb/uwb_dw3000-c0/src/dw1000_mac.c:907-929 | over every such window the timeout is switched off exactly when it was last computed for a moment within the last unit, and passes an end that lay ahead by no more than the receiver was switched on later |
| `RxWindow.TimeoutOfLastEvent` | hw/drivers/uwb/uwb_dw3000-c0/src/dw1000_mac.c:1540-1553 | in an open window the timeout was computed at the last frame or error that happened and counts from when the receiver was switched on after it, so it passes the end by no more than that delay |
| `RxWindow.TimeoutOfOpening` | hw/drivers/uwb/uwb_dw3000-c0/src/dw1000_mac.c:943-955 | before the first such event it is that of the opening |
| `RxWindow.StaysOpen` | hw/drivers/uwb/uwb_dw3000-c0/src/dw1000_mac.c:923-929 | once it is switched off no expiry closes the window |
| `RxWindow.ClosedOnlyLate` | hw/drivers/uwb/uwb_dw3000-c0/src/dw1000_mac.c:1706-1741 | a window is closed only by an expiry served with less than two units left |
| `SysCfg.Device.SetRxTimeout` | hw/drivers/uwb/uwb_dw3000-c0/src/dw1000_mac.c:875-905 | the one-byte read-modify-write at offset 3 changes the enable bit and nothing else |
| `SysCfg.Device.SetFrameFilter` | hw/drivers/uwb/uwb_dw3000-c0/src/dw1000_mac.c:1048-1071 | sets the filter field and, when enabling, the frame types; other defined bits stay |
| `SysCfg.Device.SetAutoAck` | hw/drivers/uwb/uwb_dw3000-c0/src/dw1000_mac.c:1084-1108 | sets its field; other defined bits stay |
| `SysCfg.Device.SetDoubleBuffer` | hw/drivers/uwb/uwb_dw3000-c0/src/dw1000_mac.c:1185-1209 | sets its (inverted) field, brings the buffer pointers together; other defined bits stay |
| `SysCfg.Device.ExecuteAll` | hw/drivers/uwb/uwb_dw3000-c0/src/dw1000_mac.c:875-1209 | any sequence of setters refines a record of independent fields, and clear reserved bits stay clear |
| `SysCfg.LastSetterWins` | hw/drivers/uwb/uwb_dw3000-c0/src/dw1000_mac.c:875-1209 | each field holds what its own last setter asks for |
| `SysCfg.UnsetStays` | hw/drivers/uwb/uwb_dw3000-c0/src/dw1000_mac.c:875-1209 | a field that is never set keeps its value |
| `SysCfg.CommuteIff` | hw/drivers/uwb/uwb_dw3000-c0/src/dw1000_mac.c:875-1209 | two setters can be exchanged on every register value exactly when they do not give one field two values |
| `TraceRing.Ring.Add` | hw/drivers/uwb/uwb_dw3000-c0/include/dw3000-c0/dw3000_dev.h:97-100 | the ring refines a log that grows unless the ring is locked |
| `TraceRing.Ring.Visit` | hw/drivers/uwb/uwb_dw3000-c0/src/dw1000_cli.c:354-363 | the locked walk yields the newest entries, oldest first, when the length divides 65536 |
| `TraceRing.SlotHolds` | hw/drivers/uwb/uwb_dw3000-c0/include/dw3000-c0/dw3000_dev.h:124-126 | which log entry each slot holds after any number of additions |
| `TraceRing.WalkIsNewest` | hw/drivers/uwb/uwb_dw3000-c0/src/dw1000_cli.c:458-467 | the walk is the last LEN entries for every log, wrapped index included |
| `TraceRing.WalkIsNewestIff` | hw/drivers/uwb/uwb_dw3000-c0/syscfg.yml:75-76 | that holds for every log exactly when LEN divides 65536 |
| `TraceMerge.MergeRings` | hw/drivers/uwb/uwb_dw3000-c0/src/dw1000_cli.c:497-519 | the two-index loop terminates and lists the merge of the two walks |
| `TraceMerge.Listing` | hw/drivers/uwb/uwb_dw3000-c0/src/dw1000_cli.c:495-521 | the same under both locks, which are open afterwards |
| `TraceMerge.ListsBoth` | hw/drivers/uwb/uwb_dw3000-c0/src/dw1000_cli.c:497-519 | every entry of both rings is listed exactly once and each ring's order is kept |
| `TraceMerge.SortedIff` | hw/drivers/uwb/uwb_dw3000-c0/src/dw1000_cli.c:497-519 | the listing is sorted by time exactly when both walks are |
| `TraceMerge.TiesInterruptFirst` | hw/drivers/uwb/uwb_dw3000-c0/src/dw1000_cli.c:502-503 | at equal times interrupts are listed before transfers |
| `Airtime.SurplusBlock` | hw/drivers/uwb/uwb_dw3000-c0/src/dw1000_phy.c:579-587 | the driver's parity bits are those of the standard, plus one block exactly when 165 divides nlen + 2 |
| `Airtime.DecimalsSuffice` | hw/drivers/uwb/uwb_dw3000-c0/src/dw1000_dev.c:1013-1016 | the driver's decimal symbol lengths round up to the same durations as the exact ones |
| `Airtime.NoWrapIff` | hw/drivers/uwb/uwb_dw3000-c0/src/dw1000_phy.c:608-612 | the 16-bit duration is the true sum exactly while that is below 65536 |
| `Airtime.WrapsAround` | hw/drivers/uwb/uwb_dw3000-c0/src/dw1000_phy.c:608-612 | the duration is below 65536 and differs from the true sum by a multiple of it |
| `Airtime.NoWrap` | hw/drivers/uwb/uwb_dw3000-c0/src/dw1000_phy.c:608-612 | no wrap-around for frames up to 1021 bytes |
| `Airtime.DurationBound` | hw/drivers/uwb/uwb_dw3000-c0/src/dw1000_phy.c:551-612 | never below the airtime of section 14.3.3.1 of IEEE 802.15.4-2011 with exact symbol lengths, and above it by less than two microseconds plus the surplus block |
| `Airtime.DurationMonotone` | hw/drivers/uwb/uwb_dw3000-c0/src/dw1000_phy.c:608-612 | a longer frame never gets a shorter duration |

## Left out

- HalTransfer.Hal.WriteNoblock: ends when the transfer it leaves in flight is complete; the interleaving of the return with the transfer is in `spi_bus.dfy`.
- MacDevice.Device.InterruptHandler: the chip sets bits only while a good frame is read; the step systems let it act between any two steps.
- BufferHandler.HandlerIsOnePiece: with the hardware's own re-enable, no frame sent meanwhile, and the other buffer free where RXOVRR stands without a frame in the host's buffer: the device model has no frame show up there.
- TxHandler.HandlerIsOnePiece: meanwhile nothing but RXOVRR may come up; any interleaving is in the step system's own theorems.
- RxWindow.Receiver.Open: the delayed start itself is one step, at the window's start.
- Airtime.DurationBound: exact arithmetic; the rounding of single-precision floating point is not modelled.
- Failed SPI starts other than that of a long read's command: they are asserted not to happen, or leave the call waiting for a completion that does not come; nor is the HAL branch for Linux part of the model.
- The content of the scratch buffer while the command of a long read is being received into it: only what reaches the chip and the caller's buffer is claimed.
- The staleness of `sys_status_hi`: its two bits are inputs of the handler models.
- Preemption inside `dw3000_mac_config`, receiver starts by application tasks in the middle of a handler run, and callbacks that transmit.
- Reads beyond the first of the frame diagnostics, carrier integrator and timestamps in the handler: register reads without effect on the modelled state.
- The select pulse that wakes a sleeping device (`dw1000_hal.c:711-742`): like a blocking access it is made between taking and releasing the bus semaphore, but clocks nothing.
- GPIO helpers, the header printing in the command line, signal-strength and angle arithmetic, PHY bring-up, sleep programming, OTP, sysfs, debugfs, shell parsing and statistics: no property across steps, or floating point.
- Semaphores, mutexes and event queue: taken as primitives of the operating system.
