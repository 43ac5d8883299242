# Verified models of the dbox2 drivers

This project models the parts of the dbox2 kernel drivers in which fast or chunked code has to agree with a simple
meaning, or a small protocol has to hold over every run, and proves those claims with Dafny's verifier
(`dafny verify dfyconfig.toml`). Code that updates state in place is modelled as classes and methods with loops; what
they compute is specified by functions, and the promises are lemmas about those functions or contracts of methods that
perform arbitrary runs.

**SD/MMC over bit-banged SPI.** Three layers, each a refinement.
`SpiWire` fixes what a card sees: rising clock edges with a level on the data line, and moves of the chip select. A card
is any function from what it has seen to the level of its answer line. A clock edge that comes together with a move of
the data line is a separate event (`Race`), so every contract that equates the wire with whole bytes also says that no
such edge happens. `MmcPort` has the eight port registers, each a set of one bits, and the byte exchanges, the unrolled
writers and the unrolled readers of wirings 1, 2 and 4; reads of the port give the card's answer on the answer pin and
arbitrary levels on foreign pins. It also has the taking over and giving back of the pins. `MmcBlocks` has the block
protocol, written twice as the driver does (`Safe` for `opt == 0`, `Fast` for `opt == 1`); both versions refine the same
two functions `ReadOutcome` and `WriteOutcome` of the card and the wire, so they put the same bits on the same edges and
return the same codes and data; `MmcWire` writes these out edge by edge. `SdCard` is a card by the SD Physical Layer Simplified Specification, section 7.2, as a
machine over bytes and over bits, with arbitrary delays and complaints; `SdBusy` is what the driver makes of a card that
is still busy with an earlier block. `MmcTransfer` says what a transfer of blocks comes to, `MmcRequest` puts the request
loop on top, up to the abstract disk, and `MmcRuns` has sequences of requests, whatever the card does and for however
long. `MmcCapacity` is the decoding of the CSD, section 5.3.2 of the same specification.

**IDE.** `IdeFifo` is the host and the CPLD as two processes: before every access of the host the CPLD may move any
number of words between its FIFO and the drive.

**Graphics.** `GtAccel`, `GtGraphics`, `GtxBlit` and `GtCrc` are the copy and CRC engine, the plane that copies
rectangles with it, the DirectFB blit, and the CRC over an interval. `GtCore` is the staged initialization,
`GtInterrupts` the dispatching of interrupts while more of them arrive.

**Queues and packets.** `EventQueue`, `VideoEvents` and `CamQueue` are three rings with three policies for a full ring;
`EventRuns` has whole runs of the event driver with handles coming and going. `Dvb2Eth` is the packetiser.

**State machines.** `Decoder` is the play state of the AViA decoder together with the commands it gets, `Remote` the key
events of two remotes with one timer, `Tuner` the programming of the two synthesizers.

## What does not hold as promised

Each of these is the exact condition under which the code meets its promise, with the failing case shown where it is
not the plain negation.

- Giving the port pins back restores them exactly when the answer pin was spare: PB18 an input for wiring 4, and PA09 no
  driven output for wiring 2, whose latch otherwise ends at the last level read from the card (`MmcPort.LostNothing`).
- The size of a card is right exactly below 2^32 bytes (`MmcCapacity.SizeRight`).
- A block write that fails with code 3 has been stored, and leaves the card busy (`SdCard.WriteServes`). The next command
  still finds the card if it is busy for at most 3 more bytes, and only then (`SdBusy.AfterTimeout`): with 4 to 10 bytes
  a write is refused with code 1, with 11 to 525 + 1000000 the busy line is taken for the acceptance of the command and
  its end for the end of the block, so that the write is reported done and nothing is stored, and with more it times out
  again; `SdBusy.LossHappens` is such a run. A read of a busy card fails and leaves the buffer alone
  (`SdBusy.DeafRead`).
- So the sector array is kept over every sequence of requests except that a write request which finds the card busy can
  be reported done without its first block: a reported write has stored all its blocks if and only if the card was awake
  (`MmcRequest.StoredWhenAwake`), which it is up to and including the first request that times out
  (`MmcRuns.AwakeUntilSlow`).
- `dboxide_insw` takes a multiple of four words from the drive unless it is asked for fewer than four
  (`IdeFifo.Exact`).
- The stride covers a line except for 32-bit pixels in lines of 640 and more on the GTX, whose register has 10 bits
  (`GtGraphics.StrideCovers`).
- `avia_gt_accel_copy` leaves room for the extra byte of odd addresses on the GTX only; on the eNX a full transaction
  with an odd address is one byte over what the blit allows itself (`GtAccel.Copy`).
- The GTX CRC of an empty interval at an even address reads two bytes (`GtCrc.CrcEngine.FeedGtx`, `GtCrc.Reach`).
- Refusing a height leaves the bits of the width as the refused call has set them
  (`GtGraphics.Plane.SetInputSize`).
- The flags of a blit hold for all its rows with even pitches, and otherwise only in the cases listed in
  `GtxBlit.FlagsStayIff`. Oddness claimed in vain is harmless; its transfers all fit exactly under `GtxBlit.BlitFits`.
- `dboxide_outsw` ends exactly for counts that are a multiple of four, so its code for two remaining words is never
  reached (`IdeFifo.WriteEnds`).
- The CAM queue is a byte FIFO exactly as long as every message leaves a byte free when it comes (`CamQueue.Run`); a
  discard keeps the invariant exactly when the read index is below 2048 (`CamQueue.Queue.Discard`).
- Stopping both decoder streams deselects their pids except when `sptsfix` is neither 0 nor 1 on an AViA 500
  (`Decoder.Run`, `Decoder.LeftSelected`).
- Video that plays or is paused has no pid selected exactly if a call has taken it away and none has selected one since;
  such a call restarts audio under paused video, on an AViA 500 after a bypass change or with `sptsfix` 1 and audio not
  paused, or selects the none pid (`Decoder.WithoutPid`, `Decoder.TakesAway`; `Decoder.ResumedWithoutPid` is a run).
- Once the timer has expired the key events are whole strokes if and only if the remotes have kept to their turns, as
  they do when one of them is disabled or silent (`Remote.RunAny`, `Remote.AloneInTurn`). With both sending, and with the
  Philips patch on or off, a key of the old remote can stay down until that remote sends its next code
  (`Remote.StuckKey`), and a key of the new remote for good: a spurious break code stops its timer, and no later code of
  another key releases it (`Remote.DownForGood`).
- Of the accepted satellite frequencies exactly those up to 3815217 kHz are reached (`Tuner.SetFreq5668`).
- An interrupt line that comes up is lost on the eNX exactly if it does so for the last time in its own turn, between its
  handler and its acknowledgement; on the GTX, where acknowledging one line writes back all pending bits of the
  register, a line is also lost that comes up while another one is served (`GtInterrupts.EnxLoses`,
  `GtInterrupts.LostWhy`).
- The watchdog thread started for the eNX is not stopped by the exit (`GtCore.LoadAndUnload`).

## Model

| member | source | states |
|---|---|---|
| SpiWire.PackOfBits | mmc/mmccombo.c:334-357 | a byte taken apart bit by bit, first bit first, and gathered again is the same byte |
| SpiWire.SentAppend | mmc/mmccombo.c:408-554 | writing two buffers one after the other puts the same edges on the wire as writing them joined |
| SpiWire.PolledIsSent | mmc/mmccombo.c:607-653 | reading n bytes drives the data line like writing n bytes 0xFF |
| SpiWire.PolledAdd | mmc/mmccombo.c:607-653 | reading m and then n bytes is reading m + n bytes |
| SpiWire.SentClean | mmc/mmccombo.c:408-605 | bytes never bring a clock edge together with a move of the data line |
| MmcPort.LostNothing | mmc/mmccombo.c:161-312 | the ports come back whatever the card answers if and only if the answer pin was spare |
| MmcPort.TrafficOwes | mmc/mmccombo.c:161-188 | transfers change nothing that will be given back, but for the latch of PA09 in wiring 2 |
| MmcPort.TakenA | mmc/mmccombo.c:190-312 | what is saved and switched on port A is enough to restore it |
| MmcPort.TakenB | mmc/mmccombo.c:190-312 | the same for port B, except for the direction of the answer pin |
| MmcPort.Returned | mmc/mmccombo.c:161-188 | setting and clearing the saved bits gives back every configuration bit and every driven level |
| MmcPort.Gather | mmc/mmccombo.c:334-406 | adding sampled bits at their places makes the byte sampled |
| MmcPort.PinsUsed | mmc/mmccombo.c:60-68 | the bits of the pins each wiring uses |
| MmcPort.Shift | mmc/mmccombo.c:607-746 | shifting sampled bits in from the right makes the byte sampled |
| MmcPort.Port.SelectLow | mmc/mmccombo.c:314-322 | selects the card with one edge, or none if it is selected, and changes nothing else |
| MmcPort.Port.SelectHigh | mmc/mmccombo.c:324-332 | deselects the card in the same way |
| MmcPort.Port.PinsAre | mmc/mmccombo.c:60-68 | the bits of the select, clock, data and answer pins of each wiring, and which of them drive |
| MmcPort.Port.SpiIo1 | mmc/mmccombo.c:334-357 | eight clean edges with the bits of the byte, and the byte the card answered on them, clock low again |
| MmcPort.Port.SpiIo2 | mmc/mmccombo.c:359-381 | the same through the pins of wiring 2 |
| MmcPort.Port.SpiIo4 | mmc/mmccombo.c:383-406 | the same through the pins of wiring 4 |
| MmcPort.Port.ClockOut14 | mmc/mmccombo.c:408-554 | one unrolled bit from precomputed register values is one clean edge with that bit |
| MmcPort.Port.SpiWrite14 | mmc/mmccombo.c:408-554 | the unrolled writer of wirings 1 and 4 puts the same edges on the wire as byte exchanges and leaves foreign pins alone |
| MmcPort.Port.ClockOut2 | mmc/mmccombo.c:556-605 | the same for one bit in wiring 2, whose data pin is on port A |
| MmcPort.Port.SpiWrite2 | mmc/mmccombo.c:556-605 | the unrolled writer of wiring 2 refines byte exchanges |
| MmcPort.Port.ClockIn | mmc/mmccombo.c:607-653 | one unrolled bit of a reader is one edge with the data line high and the answer to it shifted in |
| MmcPort.Port.ReadMultiple | mmc/mmccombo.c:607-746 | the unrolled readers store what byte exchanges of 0xFF would return, in order, and nothing else |
| MmcPort.Port.Io | mmc/mmccombo.c:1334-1365 | whichever exchange a wiring is assigned, it is a byte exchange |
| MmcPort.Port.Write | mmc/mmccombo.c:1334-1365 | whichever writer a wiring is assigned, it sends the bytes |
| MmcPort.Port.HardwareCleanup | mmc/mmccombo.c:161-188 | gives all eight port registers back as they were before the pins were taken, up to what the wiring loses |
| MmcPort.Port.SwitchA | mmc/mmccombo.c:190-312 | what is saved of port A, and how its pins are switched |
| MmcPort.Port.SwitchB | mmc/mmccombo.c:190-312 | the same for port B |
| MmcPort.Port.Take | mmc/mmccombo.c:190-312 | the pins of the wiring are set up, clock low, deselected, and everything is owed back |
| MmcPort.Port.HardwareInit | mmc/mmccombo.c:190-312 | fails exactly if a pin belongs to another device and force is off; another wiring taken before is given back first |
| MmcPort.Port.Perform | mmc/mmccombo.c:1367-1381 | every attempt and every transfer does to the wires what it should and keeps the ports restorable |
| MmcPort.Port.Run | mmc/mmccombo.c:161-312 | any run of wiring attempts and transfers ended by the cleanup has driven the wires as it should and leaves all registers as before, up to what the wirings taken lose |
| MmcPort.SpareRun | mmc/mmccombo.c:161-312 | which is nothing if every wiring attempted has a spare answer pin |
| MmcBlocks.BeginSafe | mmc/mmccombo.c:758-765 | selects the card and sends four idle bytes and the command |
| MmcBlocks.AwaitSafe | mmc/mmccombo.c:867-882 | polls until the wanted byte or the limit, and reports which |
| MmcBlocks.AwaitFast | mmc/mmccombo.c:915-930 | the same through the unrolled reader and a buffer |
| MmcBlocks.FillCommand | mmc/mmccombo.c:906-912 | the command buffer filled backwards by shifts is the command frame of the address |
| MmcBlocks.ReadBlockSafe | mmc/mmccombo.c:848-945 | the wire, the code and the data of a block read, and the rest of the buffer unchanged |
| MmcBlocks.ReadBlockFast | mmc/mmccombo.c:848-945 | the optimised read does exactly the same to the wire, the code and the buffer |
| MmcBlocks.WriteBlockSafe | mmc/mmccombo.c:748-846 | the wire and the code of a block write |
| MmcBlocks.WriteBlockFast | mmc/mmccombo.c:748-846 | the optimised write does exactly the same |
| MmcBlocks.ReadClean | mmc/mmccombo.c:848-945 | no block read ever moves the data line together with the clock, for any card |
| MmcBlocks.WriteClean | mmc/mmccombo.c:748-846 | nor does a block write |
| MmcWire.BytesSent | mmc/mmccombo.c:334-357 | bytes on the wire as clock edges, most significant bit first, written out |
| MmcWire.AnswerBits | mmc/mmccombo.c:334-357 | the bits of a received byte are the levels of the answer line after each of its edges |
| MmcWire.Polls | mmc/mmccombo.c:768-790 | polling clocks idle bytes up to the first wanted answer or to the limit, and no further |
| MmcWire.WriteWire | mmc/mmccombo.c:748-846 | the edges of a block write from select to the eight after the deselect, for each code: at most 8 polls for the response and 1000000 for the end of busy |
| MmcWire.ReadWire | mmc/mmccombo.c:848-945 | the edges of a block read likewise, with at most 100000 polls for the token, and each data byte the answer at its place |
| SdCard.AwaitIn | mmc/mmccombo.c:867-882 | polling on the wire is polling the card's byte machine |
| SdCard.ListenToken | mmc/mmccombo.c:878-888 | the data token is found exactly if the card sends it within the limit |
| SdCard.ListenBusy | mmc/mmccombo.c:782-792 | the end of busy is seen exactly if it comes within the limit |
| SdCard.FetchIn | mmc/mmccombo.c:889-897 | data come out of the card in order and nothing of them is left |
| SdCard.StoreIn | mmc/mmccombo.c:778-780 | a whole block and two CRC bytes are stored as one block, anything shorter as none |
| SdCard.WriteIs | mmc/mmccombo.c:748-846 | a block write on the wire is the one of the byte machine, in whatever state the card rests |
| SdCard.ReadIs | mmc/mmccombo.c:848-945 | so is a block read |
| SdCard.CommandIn | mmc/mmccombo.c:858-866 | the frame sent is the command the card executes, with the address given, once it is awake |
| SdCard.ResponseStage | mmc/mmccombo.c:858-877 | the command is accepted exactly if the card likes it and answers in time; otherwise the card is let go unchanged |
| SdCard.ReadServes | mmc/mmccombo.c:848-945 | a read succeeds exactly if the card serves it in time, then delivers the addressed block; no read changes the disk |
| SdCard.WriteServes | mmc/mmccombo.c:748-846 | a write is stored exactly if its command is accepted, also when the driver gives up waiting, and how busy that leaves the card |
| SdCard.ChipTracks | mmc/mmccombo.c:334-406 | the bit-by-bit card, clocked by any edges, is a card the byte machine describes |
| SdBusy.CommandMissed | mmc/mmccombo.c:758-769 | a card that wakes up within the command answers nothing that accepts it and keeps its disk |
| SdBusy.CommandSwallowed | mmc/mmccombo.c:765-775 | a card busy for longer seems to accept the command with its busy line |
| SdBusy.StrayLooksReady | mmc/mmccombo.c:778-792 | a card that wakes up among the bytes of a block stores nothing and soon looks ready |
| SdBusy.DeafWrite | mmc/mmccombo.c:748-846 | a write to a busy card stores nothing; which code it returns, exactly, and how it leaves the card |
| SdBusy.DeafRead | mmc/mmccombo.c:848-945 | a read of a busy card delivers nothing, with code 1 or 2 exactly, and how it leaves the card |
| SdBusy.AfterTimeout | mmc/mmccombo.c:748-846 | a card left busy stores the next block if and only if it wakes up within the four idle bytes ahead of the command |
| SdBusy.LossHappens | mmc/mmccombo.c:782-792 | a run in which a write times out and is stored and the next one is reported done and lost |
| MmcCapacity.SizeField | mmc/mmccombo.c:1058-1059 | the shifts and masks take C_SIZE out of the CSD |
| MmcCapacity.MultField | mmc/mmccombo.c:1060-1061 | the same for C_SIZE_MULT |
| MmcCapacity.LenField | mmc/mmccombo.c:1062 | the same for READ_BL_LEN |
| MmcCapacity.SizeRight | mmc/mmccombo.c:1058-1077 | the size in kilobytes is the capacity of the CSD if and only if that is below 2^32 bytes |
| MmcCapacity.SectorsRight | mmc/mmccombo.c:1128 | the sectors counted are twice the whole kilobytes, which with 512-byte blocks is the whole capacity |
| MmcCapacity.AddressesFit | mmc/mmccombo.c:1128 | below that, no byte address of an admitted request wraps |
| MmcTransfer.LaidAt | mmc/mmccombo.c:1284-1298 | blocks stored in sequence are in the sectors they belong to, and every other sector is as before |
| MmcTransfer.NthStored | mmc/mmccombo.c:1284-1298 | storing the next block extends the run of stored blocks by one |
| MmcTransfer.WriteStores | mmc/mmccombo.c:1284-1298 | whatever becomes of a transfer, the disk has exactly its stored blocks |
| MmcRequest.ReadOne | mmc/mmccombo.c:1264-1278 | a block read succeeds if and only if the card is awake, accepts it and sends its data in time, then delivers the disk's block |
| MmcRequest.ReadSectors | mmc/mmccombo.c:1264-1278 | exactly the blocks before the first one the card does not serve are delivered, the rest of the buffer is unchanged |
| MmcRequest.WriteOne | mmc/mmccombo.c:1284-1298 | the code of a block write and the card after it, for a card that hears it and for one that is still busy |
| MmcRequest.WriteSectors | mmc/mmccombo.c:1284-1298 | exactly the blocks before the first one the card refuses are stored, or up to the first one waited for in vain; of a busy card the first block is lost or nothing is stored |
| MmcRequest.HandleRequest | mmc/mmccombo.c:1239-1307 | one request as the sector array sees it: refused and nothing touched, or served up to the first block the card does not serve, from any state the card was left in |
| MmcRequest.RefusedWhen | mmc/mmccombo.c:1251-1256 | a request is refused if and only if there is no card, it ends beyond the last sector counted from the partition's start, or it neither reads nor writes |
| MmcRequest.ReadMeans | mmc/mmccombo.c:1257-1278 | a read that succeeds fills the buffer with the sectors from the partition's start plus the sector asked for on |
| MmcRequest.WriteMeans | mmc/mmccombo.c:1284-1298 | a write changes exactly the sectors of its stored blocks, counted from there |
| MmcRequest.SucceedsWhenServed | mmc/mmccombo.c:1251-1305 | a request succeeds if and only if it is admitted and the card serves every block of it, or swallows the first of a write and serves the others |
| MmcRequest.StoredWhenAwake | mmc/mmccombo.c:1284-1305 | a write reported done has stored all its blocks if and only if the card was awake when it came |
| MmcRequest.Determined | mmc/mmccombo.c:1239-1307 | the card and the buffer leave nothing open about what becomes of a request |
| MmcRuns.LastStored | mmc/mmccombo.c:1239-1307 | after any stores a sector holds what was last stored in it, or its first contents |
| MmcRuns.ServeAll | mmc/mmccombo.c:1239-1307 | over every sequence of requests to any card, timeouts included, each one is fulfilled from where the one before has left the card and all buffers |
| MmcRuns.DiskOfRun | mmc/mmccombo.c:1239-1307 | at any point of a run the disk is what the requests so far have stored, failed ones included |
| MmcRuns.SectorOfRun | mmc/mmccombo.c:1239-1307 | a sector of a run holds what a request stored in it last, or its first contents |
| MmcRuns.ReadsLastWritten | mmc/mmccombo.c:1239-1307 | every block a read of a run delivers is what was stored last in its sector before, or its first contents |
| MmcRuns.LastStoreOf | mmc/mmccombo.c:1239-1307 | at any point of a run a sector has a last request that stored it, or none has |
| MmcRuns.AwakeUntilSlow | mmc/mmccombo.c:1239-1307 | up to and including the first request that times out no block is lost |
| MmcRuns.PromptLosesNothing | mmc/mmccombo.c:1239-1307 | a card whose busy times end within the driver's polling never loses a block |
| IdeFifo.Cpld.Async | ide/main.c:224-279 | what the CPLD may do between two accesses: move words in order, fetch only while it is told to |
| IdeFifo.InW | ide/main.c:174-193 | a register read takes one word of the drive and leaves the FIFO empty |
| IdeFifo.TakeFour | ide/main.c:241-252 | a full FIFO read out in two accesses yields the next four words, while it may fill again |
| IdeFifo.StopRepeat | ide/main.c:274-279 | auto-repeat is switched off only with a full FIFO, which then holds exactly the last four words |
| IdeFifo.StopAndTake | ide/main.c:274-288 | the last four words are taken after the stop, and nothing more leaves the drive |
| IdeFifo.InShort | ide/main.c:203-213 | fewer than four words are read one by one |
| IdeFifo.InGroups | ide/main.c:241-266 | the groups of eight and four words leave one last group |
| IdeFifo.InSw | ide/main.c:199-289 | for every interleaving: the next words in order, exactly as many taken as stored, FIFO empty |
| IdeFifo.Exact | ide/main.c:199-289 | as many words as asked for are taken if and only if fewer than four or a multiple of four are asked for |
| IdeFifo.OutSw | ide/main.c:351-403 | for every interleaving: nothing lost or reordered; in time if and only if the last look found the FIFO empty, and then all of it is at the drive |
| IdeFifo.WriteEnds | ide/main.c:376-396 | the loop on the unsigned count ends if and only if the count is a multiple of four |
| IdeFifo.WaitForFifoEmpty | ide/main.c:128-140 | true only when the FIFO is empty; the drive meanwhile gets words only from its front |
| GtAccel.Onwards | dvb/drivers/media/dvb/avia/avia_gt_accel.c:37-71 | two copies one after the other are one copy if the regions do not interfere |
| GtAccel.TransactionSize | dvb/drivers/media/dvb/avia/avia_gt_accel.c:51-63 | on GTX 16 bytes, 14 with an odd address, or the rest; on eNX 64 bytes or the rest; always an even rest |
| GtAccel.Copy | dvb/drivers/media/dvb/avia/avia_gt_accel.c:37-71 | any size is copied as one memory copy on both chips; at most 16 bytes at a time on GTX, one more counted with an odd address, and 64 on eNX |
| GtGraphics.StrideCovers | dvb/drivers/media/dvb/avia/avia_gt_gv.c:398-404 | the stride is at least a line if and only if not (GTX, 32 bits, width of 640 or more) |
| GtGraphics.StrideIs | dvb/drivers/media/dvb/avia/avia_gt_gv.c:398-404 | the stride in bytes, for each mode, width and chip |
| GtGraphics.NextLine | dvb/drivers/media/dvb/avia/avia_gt_gv.c:46-54 | one more line copied extends a copied rectangle by that line |
| GtGraphics.SafeLine | dvb/drivers/media/dvb/avia/avia_gt_gv.c:46-54 | lines of safe rectangles can be copied upwards |
| GtGraphics.ApartIsSafe | dvb/drivers/media/dvb/avia/avia_gt_gv.c:46-54 | rectangles that do not overlap on the screen share no byte in memory |
| GtGraphics.CopiedPixels | dvb/drivers/media/dvb/avia/avia_gt_gv.c:46-54 | by line and column: where each byte comes from after a copy, and which stay |
| GtGraphics.Plane.SetInputMode | dvb/drivers/media/dvb/avia/avia_gt_gv.c:255-265 | the stride register stays in step with the mode |
| GtGraphics.Plane.SetInputSize | dvb/drivers/media/dvb/avia/avia_gt_gv.c:267-344 | which sizes are refused, the stride in step with accepted ones, and which bits a refused height has changed |
| GtGraphics.Plane.CopyArea | dvb/drivers/media/dvb/avia/avia_gt_gv.c:46-54 | every destination byte gets the old source byte, and nothing else changes |
| GtxBlit.FlagsStayIff | directfb/gfxdrivers/gtx/gtx.c:445-449 | when the flags computed once hold for every row, exactly |
| GtxBlit.RowStep | directfb/gfxdrivers/gtx/gtx.c:467-483 | the rest of a row fits if and only if its next transfer does and the rest after that, for flags true or not |
| GtxBlit.Row | directfb/gfxdrivers/gtx/gtx.c:451-483 | the transfers of a row add up to it and copy it, and when they fit, exactly |
| GtxBlit.BlitFitsIff | directfb/gfxdrivers/gtx/gtx.c:445-487 | when all rows of a blit fit with the flags of the first, by pitches, parities and width |
| GtxBlit.FromMeans | directfb/gfxdrivers/gtx/gtx.c:448-487 | with rows apart, a byte covered by a row comes from that row's source |
| GtxBlit.FromSelf | directfb/gfxdrivers/gtx/gtx.c:448-487 | a byte that no row covers stays |
| GtxBlit.RectsApart | directfb/gfxdrivers/gtx/gtx.c:439-443 | rectangles of a surface that do not overlap, or a copy to lower addresses, have rows that do not disturb each other |
| GtxBlit.SurfacesApart | directfb/gfxdrivers/gtx/gtx.c:439-443 | nor have blits between surfaces that share no memory, whatever their pitches |
| GtxBlit.PaintNext | directfb/gfxdrivers/gtx/gtx.c:448-487 | one more row copied extends a blit by that row, if no row disturbs a later one |
| GtxBlit.Blit | directfb/gfxdrivers/gtx/gtx.c:428-490 | all rows with the flags of the first: transfers add up to the rectangle, when they fit, exactly, and every byte is as the blit says |
| GtCrc.FoldAppend | dvb/drivers/media/dvb/avia/avia_gt_accel.c:73-147 | the CRC of two intervals in sequence is the CRC of both together |
| GtCrc.Packed | dvb/drivers/media/dvb/avia/avia_gt_gtx.h:829-839 | length, L bit and address survive being packed into a command word |
| GtCrc.Advance | dvb/drivers/media/dvb/avia/avia_gt_accel.c:116-139 | one command covers the next bytes exactly, for all parities, with a length field of at most 7 |
| GtCrc.CrcEngine.Crc32Enx | dvb/drivers/media/dvb/avia/avia_gt_accel.c:73-147 | chunks of 64 bytes compose to one CRC over the whole interval |
| GtCrc.CrcEngine.FeedGtx | dvb/drivers/media/dvb/avia/avia_gt_accel.c:107-139 | the commands cover each byte of the interval once and in order, for every interval up to the end of memory |
| GtCrc.CrcEngine.Crc32Gtx | dvb/drivers/media/dvb/avia/avia_gt_accel.c:73-147 | the same with either seed, down to the empty rest after four bytes, and the result inverted |
| GtCrc.BigEndianIs | dvb/drivers/media/dvb/avia/avia_gt_accel.c:94-104 | the word loaded for the all-ones seed has the first byte on top |
| EventQueue.ReadsWhatIsOwed | event/event.c:60-211 | in every run a handle reads exactly the events that matched its filter, minus those that met 32 unread ones |
| EventQueue.MatchesEither | event/event.c:60-89 | a filter joined from two lets through what either does |
| EventQueue.Handle.Put | event/event.c:60-89 | the ring appends a matching event, or drops it when full |
| EventQueue.Handle.Take | event/event.c:150-211 | the oldest event is taken, or none |
| EventQueue.Handle.SetFilter | event/event.c:91-106 | the filter changes and the queue does not |
| EventQueue.OccupiedBound | event/event.c:108-130 | fewer handles than slots are open if and only if a slot is free |
| EventQueue.EventDriver.Open | event/event.c:108-130 | refused exactly with five open handles, otherwise a free slot gets a fresh handle |
| EventQueue.EventDriver.Release | event/event.c:132-148 | the handle's slot is freed and the count follows |
| EventQueue.EventDriver.WriteMessage | event/event.c:60-89 | every open handle is offered every event, in order |
| EventRuns.Perform | event/event.c:60-211 | one call on the driver moves the histories of its slots as it should, for all five slots |
| EventRuns.Serve | event/event.c:60-211 | in every run of opening, releasing, filtering, reading and writing, each open handle has read exactly what it was owed |
| Dvb2Eth.ChecksumVerifies | dvb2eth/dvb2eth.c:147-149 | storing the checksum into a header with a zero checksum word makes it verify |
| Dvb2Eth.LengthsRight | dvb2eth/dvb2eth.c:75-95 | the skeleton's IP and UDP lengths count headers and payload |
| Dvb2Eth.VerifiesMeans | dvb2eth/dvb2eth.c:147-149 | a header verifies if and only if its ten words add up to a multiple of 0xFFFF that is not zero |
| Dvb2Eth.SkeletonAddressed | dvb2eth/dvb2eth.c:75-95 | every field of a prepared header, by position |
| Dvb2Eth.Sender.SetDest | dvb2eth/dvb2eth.c:216-241 | refused while running; otherwise all 32 headers are addressed to the destination, field by field |
| Dvb2Eth.Sender.FillHeader | dvb2eth/dvb2eth.c:145-149 | a header has the next identification and verifies, and is otherwise the skeleton |
| Dvb2Eth.Sender.SendOne | dvb2eth/dvb2eth.c:139-181 | one frame carries the next 1316 bytes, from one part or across both |
| Dvb2Eth.Sender.Send | dvb2eth/dvb2eth.c:126-184 | as many frames as whole payloads, each addressed to the destination; payloads in order without a gap; slots and identifications count on |
| CamQueue.RingSlices | cam/cam.c:160-168 | the bytes of a ring are one slice, or two when they wrap |
| CamQueue.Queue.ReadMessage | cam/cam.c:148-171 | the oldest bytes, at most as many as asked for, leave the queue in order |
| CamQueue.Queue.Discard | cam/cam.c:191 | everything is dropped, and the invariant kept if and only if the read index is below 2048 |
| CamQueue.Queue.Enqueue | cam/cam.c:232-254 | the message is appended if and only if it leaves a byte free |
| CamQueue.NothingLost | cam/cam.c:148-254 | what the reads of the FIFO return and what is left is what the messages brought, in order |
| CamQueue.Run | cam/cam.c:148-254 | over every run the queue is the FIFO and every read returns the FIFO's next bytes, if and only if each message fits when it comes |
| VideoEvents.NothingLostSilently | dvb/drivers/media/dvb/avia/avia_av_napi.c:150-221 | in every run the ring holds the latest undelivered events, at most 7, no gap goes unreported, and none is reported without a drop since the last report |
| VideoEvents.RingAdd | dvb/drivers/media/dvb/avia/avia_av_napi.c:150-189 | adding to a full ring drops the oldest event, otherwise none |
| VideoEvents.VideoEvents.AddEvent | dvb/drivers/media/dvb/avia/avia_av_napi.c:150-189 | the ring refines the queue with an overflow flag |
| VideoEvents.VideoEvents.GetEvent | dvb/drivers/media/dvb/avia/avia_av_napi.c:191-221 | an overflow is reported before the next event |
| Decoder.Decoder.constructor | dvb/drivers/media/dvb/avia/avia_av_core.c:1126-1141 | both streams stopped and nothing selected |
| Decoder.Decoder.SetBypass | dvb/drivers/media/dvb/avia/avia_av_core.c:1165-1186 | a change is remembered and selects nothing |
| Decoder.Decoder.SetPid | dvb/drivers/media/dvb/avia/avia_av_core.c:1188-1211 | only pids of 13 bits or the none pid are taken, and no command is issued |
| Decoder.Decoder.SetAudio | dvb/drivers/media/dvb/avia/avia_av_core.c:1213-1273 | which changes are allowed, what is selected after each, and the commands issued |
| Decoder.Decoder.SetVideo | dvb/drivers/media/dvb/avia/avia_av_core.c:1275-1327 | the same for video |
| Decoder.Decoder.SetTypes | dvb/drivers/media/dvb/avia/avia_av_core.c:1329-1423 | refused unless both streams are stopped; exactly the supported pairs are set, and the decoder's layout follows |
| Decoder.Decoder.Watch | dvb/drivers/media/dvb/avia/avia_av_core.c:1511-1531 | only a playing stream that makes no progress is selected again |
| Decoder.Decoder.Perform | dvb/drivers/media/dvb/avia/avia_av_core.c:1165-1531 | every call keeps the invariant, names real pids only of playing streams, and keeps the pid of video but for the calls that take it away |
| Decoder.Run | dvb/drivers/media/dvb/avia/avia_av_core.c:1165-1531 | over every run with sptsfix 0 or 1, or on an AViA 600, stopped streams have nothing selected; video that is not stopped has the pid its calls chose |
| Decoder.WithoutPid | dvb/drivers/media/dvb/avia/avia_av_core.c:1225-1293 | over every run, video that is not stopped has no pid if and only if a call took it away and none since has selected one |
| Decoder.LeftSelected | dvb/drivers/media/dvb/avia/avia_av_core.c:1249-1260 | with any other setting a run leaves both pids selected with both streams stopped |
| Decoder.ResumedWithoutPid | dvb/drivers/media/dvb/avia/avia_av_core.c:1234-1237 | a run that ends so: video is resumed after audio has restarted the decoder |
| Remote.UpIsTyped | fp/dbox2_fp_rc.c:89-207 | a stream leaves all keys up if and only if it is whole strokes: pressed, repeated, released |
| Remote.Strokes | fp/dbox2_fp_rc.c:89-207 | any orderly stream is whole strokes and at most one key still held |
| Remote.CodesDiffer | fp/dbox2_fp_rc.c:45-82 | each remote's codes tell the keys apart, and the break code is no key's |
| Remote.KeyMap | fp/dbox2_fp_rc.c:45-80 | the codes of each row of the key map |
| Remote.NewCodesComplete | fp/dbox2_fp_rc.c:45-82 | every 5-bit code of the new remote is exactly one key's |
| Remote.Receiver.KeyUp | fp/dbox2_fp_rc.c:89-104 | with one remote, the expiring timer releases the key held and no other |
| Remote.Receiver.Old | fp/dbox2_fp_rc.c:106-147 | the held key's code repeats it, any other code releases it, a known one presses its key |
| Remote.Receiver.New | fp/dbox2_fp_rc.c:149-207 | the same key with the same toggle bits repeats, anything else releases and presses |
| Remote.Run | fp/dbox2_fp_rc.c:89-207 | with one remote, every signal makes the events it should, and once the timer has expired they are whole strokes |
| Remote.AloneInTurn | fp/dbox2_fp_rc.c:89-207 | one remote alone keeps to its turns, with the other disabled or silent |
| Remote.RunAny | fp/dbox2_fp_rc.c:89-207 | for all settings and signals: whole strokes once the timer has expired if and only if the remotes have kept to their turns |
| Remote.StuckKey | fp/dbox2_fp_rc.c:102-147 | with both remotes, patched or not, a key of the old one can stay down with no timer pending |
| Remote.DownForGood | fp/dbox2_fp_rc.c:121-190 | after a spurious break code a key of the new one stays down, whatever other keys of it send |
| Tuner.RoundDivNear | fp/dbox2_fp_napi.c:41-45 | the quotient is a nearest one as long as the sum does not wrap, and 0 when it does |
| Tuner.SetFreq5659 | fp/dbox2_fp_napi.c:52-72 | the bytes decode to a divider within half a step if and only if the sum does not wrap |
| Tuner.PackedMeans | fp/dbox2_fp_napi.c:123-130 | the four bytes decode to the divider, and the prescaler cancels the halved reference |
| Tuner.StepIs | fp/dbox2_fp_napi.c:91-92 | the comparison steps double from 15625 Hz to 2 MHz |
| Tuner.Search | fp/dbox2_fp_napi.c:110-118 | some step always fits, and the finest one that fits is taken |
| Tuner.StopsInTime | fp/dbox2_fp_napi.c:103-118 | with the prescaler on, the search stops before the last ratio, so that the number fits 3 bits |
| Tuner.SetFreq5668 | fp/dbox2_fp_napi.c:88-136 | an accepted frequency is reached within half a step if and only if it is at most 3815217 kHz |
| GtCore.StackOnce | dvb/drivers/media/dvb/avia/avia_gt_core.c:146-358 | no resource is acquired twice |
| GtCore.StackIs | dvb/drivers/media/dvb/avia/avia_gt_core.c:243-361 | what a build acquires, in order |
| GtCore.ReversedAt | dvb/drivers/media/dvb/avia/avia_gt_core.c:375-440 | what the reverse order of release means |
| GtCore.Core.Exit | dvb/drivers/media/dvb/avia/avia_gt_core.c:375-440 | releases exactly what the stages passed have acquired, in reverse, for every build |
| GtCore.Core.Init | dvb/drivers/media/dvb/avia/avia_gt_core.c:146-373 | unsupported, failed at its first failing stage with everything released, or all up |
| GtCore.LoadAndUnload | dvb/drivers/media/dvb/avia/avia_gt_core.c:146-440 | for every build, board and failure the ledger balances |
| GtInterrupts.PendingWhy | dvb/drivers/media/dvb/avia/avia_gt_core.c:95-121 | which lines are pending at any point of a pass: those that came up and were not taken away since |
| GtInterrupts.SeenWhy | dvb/drivers/media/dvb/avia/avia_gt_core.c:103-108 | a line is served if and only if it came up before its register was read |
| GtInterrupts.LostWhy | dvb/drivers/media/dvb/avia/avia_gt_gtx.c:37-40 | when a line that comes up for the last time is neither handled after that nor left pending, exactly |
| GtInterrupts.EnxLoses | dvb/drivers/media/dvb/avia/avia_gt_enx.c:51-54 | on eNX a line is lost if and only if it comes up for the last time in its own turn; a different line is handled later or stays pending |
| GtInterrupts.EnxLosesOwn | dvb/drivers/media/dvb/avia/avia_gt_core.c:107-118 | for every line there is such a pass: served once for two arrivals, with nothing left pending |
| GtInterrupts.GtxLoses | dvb/drivers/media/dvb/avia/avia_gt_gtx.c:37-40 | on GTX a line that comes up while another of its register is handled is lost |
| GtInterrupts.CalledFor | dvb/drivers/media/dvb/avia/avia_gt_core.c:107-111 | exactly the handlers of lines found pending are called, with the code of the line |
| GtInterrupts.CalledInOrder | dvb/drivers/media/dvb/avia/avia_gt_core.c:103-111 | in the order of the lines, so each once |
| GtInterrupts.MasksWhy | dvb/drivers/media/dvb/avia/avia_gt_core.c:112-115 | exactly the lines found pending without a handler are masked |
| GtInterrupts.CodeRoundTrip | dvb/drivers/media/dvb/avia/avia_gt.h:74-78 | the code of a line gives back its place in the table |
| GtInterrupts.Dispatcher.Alloc | dvb/drivers/media/dvb/avia/avia_gt_core.c:69-84 | a used line is refused; a free one gets the handler, unmasked and not pending |
| GtInterrupts.Dispatcher.Free | dvb/drivers/media/dvb/avia/avia_gt_core.c:86-93 | the line is masked and has no handler |
| GtInterrupts.Dispatcher.ClearIrq | dvb/drivers/media/dvb/avia/avia_gt_gtx.c:37-40 | what acknowledging takes away on each chip, within the chip's register table |
| GtInterrupts.Dispatcher.Irq | dvb/drivers/media/dvb/avia/avia_gt_core.c:95-121 | a pass leaves pending, masked and called what the functions above say, for every pattern of arrivals; each line pending at its start is handled exactly once, or masked, and acknowledged |

## Left out

- Kernel plumbing: module registration, devfs and proc entries, copying from and to user space, wait queues, locks and
  memory allocation. Calls are atomic unless a model says otherwise; blocking reads and failing copies are not modelled.
- Real time: delays, time-outs in jiffies, and the counts of the bounded retries beyond what their results are.
- The other MMC drivers (`mmc/mmc.c`, `mmc/mmc2.c` and the test drivers): `mmccombo.c` contains their algorithms.
- MmcPort.Port.HardwareInit: the card has seen nothing yet when the pins are taken; edges that the switching of the pins
  itself may cause on a powered card are not modelled, nor is what open-drain settings do to a level.
- MmcPort.Port.Run: the ports are sets of bits of unbounded width; nobody else writes them meanwhile. Which levels the
  answer latch has when wirings are given back is left open.
- The initialization of a card and the reading of its CSD over SPI; the capacity is computed from any 16 bytes.
- MmcRequest.HandleRequest: for cards whose READ_BL_LEN gives 512-byte blocks, as the request loop multiplies 512-byte
  sector numbers with the block length; sector, start and count together below 2^32.
- SdBusy.AfterTimeout: how long a card is busy is counted in the bytes clocked while it is selected; that it also gets
  on with programming between two requests is not modelled.
- SdCard.WriteServes: the data response token is not inspected by the driver, so the card accepts every block sent to
  it; the gap between response and data token of a write is not required.
- IdeFifo.OutSw: for counts that are a multiple of four, the only ones for which its loop ends.
- GtAccel.Copy: copies upwards only; the decrement flag is never used with the rectangles.
- GtCrc.CrcEngine.Crc32Gtx: the update function of the CRC is arbitrary; that loading the first four bytes equals
  folding them into the all-ones seed is a property of the polynomial and not stated. Memory of at most 4 MB, as the
  address field has 22 bits; fewer than four bytes with that seed make the unsigned count wrap.
- GtxBlit.Blit: what rectangles whose rows disturb each other end up with.
- `gtxFillRectangle` and its chunk loops: what the blitter draws per data word is not known from the source.
- The cursor, the colour table and the other graphics registers.
- Polling and blocking on the event device.
- Dvb2Eth.Sender.Send: whether the ethernet driver is done with a header slot before it is used again.
- CamQueue.Run: runs without a discard, whose effect is stated for itself.
- CamQueue.Queue.Enqueue: the reading of a message over I2C and the answer to CAID requests.
- VideoEvents.NothingLostSilently: between two opens; an open resets the indices but not the overflow flag.
- Decoder.Decoder.SetAudio: commands succeed; the writes of the sync mode and the audio configuration are not modelled,
  and streams 2 and 3 count as one audio slot.
- Remote.Receiver.Old: the handlers and the timer do not interrupt each other; what the input layer does with the events
  beyond keeping track of keys that are down.
- GtCore.Core.Init: an initialization function of a block that fails is taken to have released its own resources.
- GtInterrupts.Dispatcher.Irq: handlers do not allocate or free lines; a write with bit 0 clear takes the written bits
  of an eNX register away, and a GTX status bit is cleared by writing it as one.
- Drivers that would add easy members only: the audio and video switches, the clock, the display and its font, the video
  encoder's tables, keyboard and mouse maps. The infrared receiver, the I2C driver and the display's reads are not part
  of this model.
