# Verified models of DeSmuME's core state machines

DeSmuME emulates the Nintendo DS. These modules model the parts of it that are small state
machines or optimised loops, in the form the emulator gives them (objects whose methods update
fields, loops over arrays), and prove each against an independent definition: what a pixel shows,
what a queue holds, what a set of control bytes maps, what a square root is.

| area | modules |
|---|---|
| two-CPU interleaving loop, event sequencer, scanline event, timers | `ArmLoop`, `Sequencer`, `LoopTurns`, `Scanline`, `Frames`, `Timers` |
| square-root unit, DMA channels, VRAM banks and address translation | `SqrtUnit`, `Dma`, `DmaController`, `DmaAddresses`, `VramSpec`, `VramTables`, `VramMapper`, `VramTheorems`, `VramPlaces`, `GpuMemory`, `LcdMap` |
| inter-processor and geometry FIFOs | `RingIndex`, `IpcControl`, `IpcFifo`, `GxFifo` |
| 2D line renderers and the upscaled framebuffer | `TextBg`, `RotScale`, `SpriteSpec`, `SpritePictures`, `SpriteRender`, `Windows`, `SinglePrecision`, `ScaleCuts`, `Upscale` |
| cache timing model, register-list printer | `CacheModel`, `RegList` |
| integer ranges and division facts | `Types`, `Arith` |

The rest of the emulator is abstracted: a CPU instruction is an arbitrary outcome (its cost and the
machine flags it leaves), the current time is an argument, and the data a DMA channel moves is a log
of addresses.

Where the code departs from what its comments or its design promise, the model keeps the code, a
lemma gives an input that shows it or the exact condition under which the promise holds, or both:

- the cache's last-set shortcut reports a hit for an address that is not cached
  (`CacheModel.ShortcutCanLie`, exact condition in `ShortcutInvisibleIff`);
- the clocks can come apart when an idle ARM7 hands over to an ARM9 that is past the slice, and
  `nds_timer` can then move backwards in a later pass (`Sequencer.TimeMovesBackwards`; exactly when,
  as seen before the pass: `CanLoseSyncIff`, `CanMoveBackIff`);
- a geometry-FIFO transfer whose word count was written as zero leaves nearly 2^32 words to copy
  (`Dma.RequestHonouredIff`), and one requested of a channel that is running in another mode copies
  nothing (`Dma.RequestTakenIff`);
- a geometry-FIFO transfer whose destination is to be reloaded begins again at it with every burst
  (`DmaAddresses.TransferAddresses`);
- the second half of an OBJ extended palette never follows the first (`VramTables.ObjPaletteHalves`);
- a timer serviced late counts one overflow for several (`Timers.LateServiceLosesCounts`, exact
  condition in `LateServiceIff`; for its interrupts in `LateInterruptsIff`), and a timer read in the cycle of its start reads one below its
  reload value (`Timers.ReadsInRangeIff`);
- a text line narrower than its first tile is drawn past its end (`TextBg.LineExactIff`); the
  emulator never asks for one, as both callers pass 256 or a background width;
- clearing the geometry FIFO leaves its status flags as they were (`GxFifo.Fifo.Clear`);
- the sprite number kept for the mosaic test can be that of a sprite that is not shown, because
  16-colour and rotated sprites do not enter theirs and nothing clears it between lines
  (`SpriteSpec.NumberGoesStale`, exact condition in `NumberIsRightIff`);
- rotated sprites and window sprites are read through one host pointer, which can leave the picture
  as it is mapped (`SpriteSpec.RotatedPictureIff`, `SpriteSpec.WindowRowIff`);
- a rotated direct-colour sprite in a picture mapped 128 pixels wide steps by its own width below its
  first row (`SpritePictures.RotatedRowsIff`), and rotated direct colours are one step less opaque
  than unrotated ones (`SpritePictures.SamePicture`);
- at some framebuffer heights of more than 65536 lines per native line, single precision puts the
  last cut beside the edge (`ScaleCuts.FloatCutsPartitionIff`), and at ordinary ones it can put a
  cut one line late (`ScaleCuts.CutRoundedUp`, exactly when: `ScaleCuts.HeightCutsNearExact`);
- a VCOUNT write keeps the frame intact only for line numbers, and the vertical-blank flag only for
  a smaller range (`Scanline.VCountStaysInFrameIff`, `Scanline.VBlankFlagRightIff`).

## Model

| member | source | states |
|---|---|---|
| ArmLoop.IterateProgress | desmume/src/NDSSystem.cpp:1736-1801 | Every iteration brings one CPU closer to the end of the slice, so the loop ends whatever the instructions cost. |
| ArmLoop.LoopGuarantees | desmume/src/NDSSystem.cpp:1733-1804 | Over a whole run with arbitrary instruction outcomes: no step starts at or past the slice end, clocks and idle counters are explained step by step, the CPUs stay within the larger of the initial skew and the largest step, and the loop only stops at the slice end, on a reschedule or on a halt; the hand-over to the ARM9-only loop included. |
| ArmLoop.RunKeeps | desmume/src/NDSSystem.cpp:1736-1801 | The same account and bounds hold from any state of the loop to its end. |
| ArmLoop.IterateKeeps | desmume/src/NDSSystem.cpp:1738-1800 | One iteration keeps the account of cycles and the skew and time bounds. |
| ArmLoop.Arm9TurnKeeps | desmume/src/NDSSystem.cpp:1739-1765 | A turn of the ARM9 before the slice end takes at least one cycle, starts before the slice end, keeps the account of clocks and idle cycles, and leaves the ARM7 alone. |
| ArmLoop.Arm7TurnKeeps | desmume/src/NDSSystem.cpp:1766-1796 | The same for a turn of the ARM7, which hands over only exactly at the slice end. |
| ArmLoop.Machine.ArmInnerLoop | desmume/src/NDSSystem.cpp:1733-1804 | The loop with its recursive ARM9-only instance ends in the state of the iteration-by-iteration run, in CPU clocks, nds_timer, idle counters and flags. |
| LoopTurns.Arm9TurnDoes | desmume/src/NDSSystem.cpp:1739-1765 | An ARM9 turn executes iff neither an interrupt wait nor freezeBus holds it; waiting takes at most 4000 cycles and not beyond the slice, and with fewer than 255 FIFO entries clears bit 0 of freezeBus and no other. |
| LoopTurns.Arm7TurnDoes | desmume/src/NDSSystem.cpp:1766-1796 | An ARM7 instruction takes twice its cost; a wait that reaches the end of the slice hands over, and freezeBus stays. |
| LoopTurns.RunTurns | desmume/src/NDSSystem.cpp:1736-1801 | Over a whole run every logged turn begins at its CPU's clock and takes a waiting time or the cost of an instruction, doubled for the ARM7. |
| LoopTurns.RunWaits | desmume/src/NDSSystem.cpp:1757-1763 | After a run in which nobody executed, bit 0 of freezeBus is clear if the ARM9 had a turn and the FIFO has fewer than 255 entries, and all other flags are as they were. |
| LoopTurns.StallWithAwakeArm7 | desmume/src/NDSSystem.cpp:1757-1796 | With the bus held by a FIFO that has room, the ARM9 due first and an awake ARM7 due within the pass, some instruction is executed in it. |
| LoopTurns.StallEnds | desmume/src/NDSSystem.cpp:1757-1763 | An awake ARM9 held up like that, and due, is free after the pass, and then executes in the next pass long enough for it, unless an instruction was executed before. |
| Sequencer.FindNext | desmume/src/NDSSystem.cpp:1504-1527 | The result is the due time of the scanline item or of an enabled unit, and none of these is earlier. |
| Sequencer.NothingTriggeredBefore | desmume/src/NDSSystem.cpp:839-870 | An instant lies before the found time iff no unit is triggered at it. |
| Sequencer.EventsAreNotPassed | desmume/src/NDSSystem.cpp:1878-1917 | In every pass no CPU step starts at or after the moment any enabled event is due, and the pass overshoots by less than one step or the ARM9's initial lead. |
| Sequencer.CyclesAccounted | desmume/src/NDSSystem.cpp:1914-1936 | Each CPU's clock advances by its executed cycles plus its credited idle cycles, the rollback of waiting CPUs included. |
| Sequencer.SyncAfterSlice | desmume/src/NDSSystem.cpp:1884-1936 | From synchronised clocks nds_timer does not move back, and they come apart iff the ARM7 handed over, is awake at the end, and the ARM9 ended past the slice; the ARM7 is then behind. |
| Sequencer.CanLoseSyncIff | desmume/src/NDSSystem.cpp:1878-1936 | Whether some run of the next pass can take synchronised clocks apart, decided from the clocks, flags and due time before it. |
| Sequencer.StaysSettled | desmume/src/NDSSystem.cpp:1878-1936 | Every pass leaves synchronised clocks or an ARM7 behind an nds_timer that stands at the ARM9. |
| Sequencer.CanMoveBackIff | desmume/src/NDSSystem.cpp:1878-1936 | From any clocks a pass can leave, some run of the next one takes nds_timer back iff the machine runs, the ARM7 is neither waiting nor frozen, more than one shortest instruction behind nds_timer, and before the next event. |
| Sequencer.TimeMovesBackwards | desmume/src/NDSSystem.cpp:1786-1800 | A concrete two-pass run in which nds_timer goes from 1040 back to 1022. |
| Sequencer.Console.ExecSlice | desmume/src/NDSSystem.cpp:1878-1936 | One pass of the emulation loop leaves exactly the clocks and idle counters of the specified slice. |
| LoopTurns.PassLength | desmume/src/NDSSystem.cpp:1878-1917 | A pass begins no step after 4000 cycles or after the next event, and reaches the earlier of the two unless a reschedule or a halt stops it. |
| LoopTurns.WaitingClocks | desmume/src/NDSSystem.cpp:1914-1936 | After a pass a CPU waiting for an interrupt stands at nds_timer, and any other where its turns took it. |
| Scanline.Display.constructor | desmume/src/NDSSystem.cpp:1177-1209 | The schedule starts at time zero at the end of line 262 with no interrupt or trigger issued. |
| Scanline.Display.ExecHStart | desmume/src/NDSSystem.cpp:1394-1464 | From any line, a line start moves the counter on (rolling over at 263), updates both status registers for the new line and issues the line-start and memory-display triggers; in the frame, flags that were right are right for the new line. |
| Scanline.StartLineFlags | desmume/src/NDSSystem.cpp:1344-1369 | Entering a line of the frame with right flags, the updates leave a status that agrees with the line, with interrupts armed exactly as enabled. |
| Scanline.Display.ExecVBlankStart | desmume/src/NDSSystem.cpp:1298-1312 | Pending vertical-blank interrupts of both CPUs are raised once and the vertical-blank trigger is issued. |
| Scanline.Display.ExecVCountIrq | desmume/src/NDSSystem.cpp:1329-1343 | Pending line-match interrupts of both CPUs are raised once. |
| Scanline.Display.ExecHStartIrq | desmume/src/NDSSystem.cpp:1378-1392 | Everything armed by the line start is raised, in order, and nothing stays armed. |
| Scanline.Display.ExecHBlank | desmume/src/NDSSystem.cpp:1231-1277 | The horizontal-blank flag goes up, the enabled horizontal-blank interrupts are raised, and visible lines trigger their DMA. |
| Scanline.Display.ExecHardware | desmume/src/NDSSystem.cpp:1529-1570 | However late it is called, the event keeps timestamp, phase, VCOUNT, frame count and both status registers at the closed form of the number of serviced events, and issues exactly the interrupts and DMA triggers of its phase and line. |
| Scanline.NextEvent | desmume/src/NDSSystem.cpp:1538-1566 | The closed forms of phase, time, line and frame count advance as the event's four cases do. |
| Scanline.LineTiming | desmume/src/NDSSystem.cpp:1529-1570 | The k-th line start is due at exactly 4260 k and enters line k mod 263, its other phases follow after 12, 96 and 3204 cycles; a frame lasts the 1120380 cycles used for load tracking, with one vertical-blank end in it. |
| Frames.DmaTriggers | desmume/src/NDSSystem.cpp:1231-1464 | In the first k lines there are k line-start DMA triggers, one display and one horizontal-blank trigger for each of lines 0 to 191, and one vertical-blank trigger for each line 192. |
| Frames.Interrupts | desmume/src/NDSSystem.cpp:1231-1392 | With its settings left alone, a CPU gets in the first k lines one vertical-blank interrupt per line 192, one line-match interrupt each time its line comes, if there is such a line, and one horizontal-blank interrupt a line, as far as each is enabled. |
| Scanline.Display.WriteVCount | desmume/src/MMU.cpp:4716-4724 | A VCOUNT write keeps the display on its schedule iff it changes nothing, and outside lines 202 to 212 it changes nothing; a write that takes effect leaves the vertical-blank flags of both CPUs right at the next line start iff the value is between 191 and 261, and the counter is inside the frame k lines later iff the value is, or the 32-bit counter has wrapped. |
| Scanline.VCountStaysInFrameIff | desmume/src/MMU.cpp:4716-4724 | k lines after a permitted VCOUNT write the counter is inside the frame iff a line number below 263 was written or the 32-bit counter has wrapped, and its value in each case. |
| Scanline.VBlankFlagRightIff | desmume/src/MMU.cpp:4716-4724 | The vertical-blank flag is right at the next line start iff the value written is between 191 and 261. |
| Timers.TimerUnit.WriteTimer | desmume/src/MMU.cpp:1967-2008 | Starting reloads the timer, stopping freezes its value, and an unchained timer's overflow is scheduled one period ahead; the other timers are untouched. |
| Timers.Prescalers | desmume/src/MMU.cpp:1985-1998 | The four prescalers count every 1, 64, 256 and 1024 clocks of two cycles each; the other settings chain. |
| Timers.TimerUnit.CatchUp | desmume/src/NDSSystem.cpp:930-938 | The catch-up loop ends with the next overflow in (now, now + period], (now - due) / period + 1 periods later. |
| Timers.TimerUnit.Exec | desmume/src/NDSSystem.cpp:913-962 | A serviced overflow reloads its timer and counts once into the chain above it, raising once, in order, the interrupts of its own overflow and of the chained timers that came round. |
| Timers.CarryAddsOne | desmume/src/NDSSystem.cpp:918-961 | One count adds exactly one to the mixed-radix number of the chained timers, modulo the product of their sizes 65536 - reload. |
| Timers.ChainCountsModRadix | desmume/src/NDSSystem.cpp:918-961 | After any number of base overflows the chain holds the starting value plus that number, modulo the product. |
| Timers.CarryKeeps | desmume/src/NDSSystem.cpp:918-961 | Counting leaves lower timers and all settings alone and keeps timers at or above their reload values. |
| Timers.NoCountPast | desmume/src/NDSSystem.cpp:918-961 | A timer that is off or unchained takes no count of the chain, and neither does any above it. |
| Timers.IrqIffWrap | desmume/src/NDSSystem.cpp:948-957 | A chained timer interrupts iff it is enabled to and all digits up to it stand at their largest value. |
| Timers.IrqAfter | desmume/src/NDSSystem.cpp:948-957 | Whether the next count interrupts, from the total counted so far. |
| Timers.IrqRate | desmume/src/NDSSystem.cpp:948-957 | Over n base overflows an enabled chained timer interrupts floor((value + n) / product) times. |
| Timers.LateServiceIff | desmume/src/NDSSystem.cpp:913-962 | Servicing a timer when k overflows are due leaves all four timers as k services on time would iff k - 1 is a multiple of the product of the chain above it. |
| Timers.LateInterruptsIff | desmume/src/NDSSystem.cpp:913-962 | Such a service raises timer j's interrupt as often as k services on time would iff, for the timer itself, its interrupt is off or k is 1, and for a chained one, one overflow and k overflows bring it round equally often. |
| Timers.LateServiceLosesCounts | desmume/src/NDSSystem.cpp:930-943 | A timer with a period of two cycles, serviced two cycles late: the chained timer above it counts one instead of two. |
| Timers.OnTimeCounts | desmume/src/NDSSystem.cpp:913-962 | k services on time reload the timer, move its overflow by k periods, and count k times into the chain. |
| Timers.RunningTimerReads | desmume/src/MMU.cpp:1931-1965 | e > 0 cycles after the start a running timer reads reload + ceil(e / unit) - 1. |
| Timers.ReadsInRangeIff | desmume/src/MMU.cpp:1943-1964 | A running timer reads at least its reload value iff the read is after the start instant or the reload value is zero. |
| Timers.ReadsAreMonotone | desmume/src/MMU.cpp:1943-1964 | Until its overflow a running timer never counts down. |
| SqrtUnit.Isqrt | desmume/src/MMU.cpp:57-88 | For every 64-bit x the result r has r*r <= x < (r+1)*(r+1) and fits in 32 bits. |
| SqrtUnit.NextDigit | desmume/src/MMU.cpp:76-85 | One round of the bitwise loop turns the root of the leading bit pairs into the root of one pair more. |
| SqrtUnit.OrIsSum | desmume/src/MMU.cpp:78-80 | The loop's bitwise ors join numbers without common bits, so they add. |
| SqrtUnit.RootUnique | desmume/src/MMU.cpp:57-88 | A number has one integer root, so the register's content is determined. |
| SqrtUnit.TopBit | desmume/src/MMU.cpp:69-70 | The starting bit the mask expression computes is 2^62. |
| SqrtUnit.Unit.Start | desmume/src/MMU.cpp:1064-1085 | A start latches the operand, clears the result, and schedules completion 26 cycles ahead. |
| SqrtUnit.Unit.WriteControl | desmume/src/MMU.cpp:3380-3382 | A 16-bit control write switches the operand width and restarts. |
| SqrtUnit.Unit.WriteControl32 | desmume/src/MMU.cpp:3813-3813 | A 32-bit control write switches the operand width without a restart; the pending or shown root stays right. |
| SqrtUnit.Unit.WriteParam | desmume/src/MMU.cpp:4055-4063 | A parameter write stores one half of the operand and restarts. |
| SqrtUnit.Unit.Service | desmume/src/NDSSystem.cpp:1061-1085 | Once due, the result register holds the root of the operand latched last, whatever restarts came before. |
| DmaController.Controller.TryTrigger | desmume/src/MMU.cpp:2448-2460 | A trigger copies nothing, keeps the account of the geometry-FIFO transfer under way, and is not noticed at all by a copy in progress. |
| DmaController.Controller.CopyWords | desmume/src/MMU.cpp:2389-2410 | The copy loop makes exactly the specified transfers in address order modulo 2^32, although its own writes may trigger the channel in mid-copy. |
| DmaController.Controller.DoCopy | desmume/src/MMU.cpp:2336-2435 | One copy moves the words the mode calls for, schedules its end and writes addresses and count back. |
| DmaController.Controller.Exec | desmume/src/MMU.cpp:2266-2334 | The event of a geometry-FIFO transfer keeps its account, copies at most 112 words behind those copied before, and leaves the channel disabled, with one interrupt, exactly when all words are copied and the last copy has ended. |
| DmaController.Controller.WriteControl | desmume/src/MMU.cpp:2201-2264 | A control write reads back as written, and starts a fresh account, with the addresses and count the user set, exactly when it requests a geometry-FIFO transfer of a nonzero count from a channel that is not running in another mode; an earlier transfer may be pending, running or paused. |
| Dma.RunConserves | desmume/src/MMU.cpp:2266-2484 | In every run of triggers and services of a geometry-FIFO channel, words copied plus words left stay the initial count, each word is read once in address order, and the channel disables itself with one interrupt exactly when all are copied. |
| Dma.ApplyKeeps | desmume/src/MMU.cpp:2266-2484 | One event keeps that account and copies at most 112 words. |
| Dma.CopyConserves | desmume/src/MMU.cpp:2339-2435 | One burst copies min(112, words left), continuing the address sequence. |
| Dma.NeverStuck | desmume/src/MMU.cpp:2448-2460 | An unfinished channel always has its event pending, or gets it from the next low-FIFO trigger and then copies a burst. |
| Dma.DrainSchedule | desmume/src/MMU.cpp:2266-2334 | On a FIFO that stays low the n-th service leaves max(0, W - 112 n) words for every n, and the first service that finds none stops the channel. |
| Dma.RequestHonouredIff | desmume/src/MMU.cpp:2339-2434 | The first burst leaves the requested words less itself iff the count was not written as zero; with zero nearly 2^32 words remain. |
| Dma.RequestArms | desmume/src/MMU.cpp:2201-2264 | A request to a channel that is idle or already running in geometry-FIFO mode, enabled or not, arms it with the user's addresses and count; it waits for an older mode's trigger first iff the channel was enabled in another mode than immediate and that trigger is still to come. |
| Dma.RequestTakenIff | desmume/src/MMU.cpp:2201-2334 | Whether any later events copy a word for the request: iff the channel was not running in another latched mode when it came. |
| DmaAddresses.TransferAddresses | desmume/src/MMU.cpp:2339-2409 | Over every run after a geometry-FIFO request, the k-th word copied comes from the source register plus k words, minus k words, or always the same address, modulo 2^32, as bits 23 and 24 and the word-size bit of the control word say; the destination likewise by bits 21 and 22, where mode 3 begins again every 112 words; a finished channel has copied exactly the count. |
| DmaAddresses.NoAddressTwice | desmume/src/MMU.cpp:2354-2370 | With moving addresses no two words of a transfer share one. |
| DmaAddresses.BurstsOf112 | desmume/src/MMU.cpp:2353-2353 | On a FIFO of at most 127 entries n services copy min(W, 112 n) words. |
| DmaAddresses.FullFifoWaits | desmume/src/MMU.cpp:2313-2316 | With more than 127 entries an untriggered channel copies nothing and stays enabled. |
| DmaAddresses.FullFifoPauses | desmume/src/MMU.cpp:2275-2290 | A transfer whose last burst has ended there pauses with its words kept and its trigger forgotten. |
| DmaAddresses.TriggerNoticedIff | desmume/src/MMU.cpp:2448-2460 | A trigger is noticed iff the channel is enabled, of that mode and not copying, and only makes its event due. |
| DmaAddresses.StartModes | desmume/src/MMU.cpp:2297-2305 | The start mode each setting stands for, on either CPU and each channel. |
| DmaAddresses.WholeTransfer | desmume/src/MMU.cpp:2336-2435 | In any other mode a triggered channel copies its whole count in one service, in order from its addresses; 0 stands for 0x200000 on the ARM9, the display takes 128 words and the card what it has. |
| DmaAddresses.TransferEnds | desmume/src/MMU.cpp:2266-2334 | The next service ends it, with one interrupt if enabled; only a repeating channel stays enabled, with its count as it was. |
| Dma.ReadBack | desmume/src/MMU.cpp:2487-2500 | What is written to the control register is read back, except for the start bit the ARM7 lacks. |
| VramMapper.Mapper.MapControl | desmume/src/MMU.cpp:808-913 | After any bank-control write, every map, pointer table, purpose and status byte equals the one function of the current control bytes. |
| VramMapper.Mapper.constructor | desmume/src/MMU.cpp:1025-1025 | After reset the maps are those of zero control bytes. |
| VramMapper.Mapper.UnmapAll | desmume/src/MMU.cpp:778-806 | All pages are unmapped and all pointers lead to blank memory. |
| VramMapper.Mapper.MapLcdc | desmume/src/MMU.cpp:513-522 | A bank handed to LCDC shows each of its pages at its own place, and nothing else changes. |
| VramMapper.Mapper.MapArm9 | desmume/src/MMU.cpp:524-532 | A bank's pages appear in order from the given ARM9 page, and nothing else changes. |
| VramMapper.Mapper.RefreshBank | desmume/src/MMU.cpp:540-776 | Refreshing one bank from its control byte changes each map exactly where the bank's placements say. |
| VramMapper.Mapper.Mirror | desmume/src/MMU.cpp:879-894 | A region is filled with copies of its mappable pages. |
| VramTheorems.HistoryIndependent | desmume/src/MMU.cpp:808-913 | Two histories with the same last values written to the nine banks give the same maps. |
| VramTheorems.LastWriteDecides | desmume/src/MMU.cpp:811-825 | After any run of writes a bank's control byte is the last one written to it. |
| VramTheorems.BestRankWins | desmume/src/MMU.cpp:838-850 | A page shows the bank mapping it that comes last in the order I,H,G,F,E,A,B,C,D, and is unmapped iff none does. |
| VramTheorems.RegionsArePeriodic | desmume/src/MMU.cpp:879-894 | The four regions repeat with periods 32, 8, 16 and 8 over 128 pages. |
| VramTheorems.PageHasOneOwner | desmume/src/MMU.cpp:540-776 | A page visible as BG or OBJ memory is neither in the LCDC window nor at the ARM7. |
| VramPlaces.BankAB | desmume/src/MMU.cpp:556-588 | Which ARM9 pages show bank A or B when it is the only one enabled, for every value of its control byte: BG memory at four offsets, OBJ memory at two. |
| VramPlaces.BankABElsewhere | desmume/src/MMU.cpp:556-588 | And its LCDC pages, ARM7 slots and pointer tables: the texture slot of its offset. |
| VramPlaces.BankCD | desmume/src/MMU.cpp:589-634 | The same for C and D: BG memory of engine A, all BG (C) or OBJ (D) memory of engine B. |
| VramPlaces.BankCDElsewhere | desmume/src/MMU.cpp:589-634 | LCDC pages, the ARM7 slot of offset 0 or 1, and the texture slot. |
| VramPlaces.BankE | desmume/src/MMU.cpp:635-667 | The same for E: the first four BG or OBJ pages. |
| VramPlaces.BankEElsewhere | desmume/src/MMU.cpp:635-667 | LCDC pages, four texture palettes, or the four extended BG palettes of engine A. |
| VramPlaces.BankFG | desmume/src/MMU.cpp:668-717 | The same for F and G: offsets 0 to 3 begin at pages 0, 1, 4 and 5, and the bank appears there and two pages on. |
| VramPlaces.BankFGElsewhere | desmume/src/MMU.cpp:668-717 | LCDC page, the texture palette 0, 1, 4 or 5, two extended BG palettes, or the first half of the OBJ palette. |
| VramPlaces.BankHI | desmume/src/MMU.cpp:718-766 | The same for H and I: engine B's BG memory, H twice and I in the gap, or I in its OBJ memory. |
| VramPlaces.BankHIElsewhere | desmume/src/MMU.cpp:718-766 | LCDC pages, engine B's extended BG palettes (H), or the first half of its OBJ palette (I). |
| VramPlaces.Purposes | desmume/src/MMU.cpp:548-776 | The purpose recorded for each bank and setting. |
| VramPlaces.OverlapOrder | desmume/src/MMU.cpp:838-850 | Of several banks mapping a page the first of D, C, B, A, E, F, G, H, I shows. |
| VramTables.TextureSlotOwner | desmume/src/MMU.cpp:582-622 | A texture slot belongs to the last of A, B, C, D claiming it, else to blank memory. |
| VramTables.ObjPaletteHalves | desmume/src/MMU.cpp:710-763 | The first half of an OBJ extended palette belongs to the last claiming bank; the second stays in blank memory in every mapping, never following the first. |
| GpuMemory.Memory.PointerWalk | desmume/src/MMU.h:561-579 | A pointer mapped for an aligned run of 4 or 8 bytes may be advanced inside the run. |
| GpuMemory.Memory.PointerReachIff | desmume/src/MMU.h:561-579 | A pointer advanced by d is the pointer mapped d further on iff the page reached has the LCDC page number of the first plus the pages crossed. |
| GpuMemory.Memory.HalfIsTwoBytes | desmume/src/MMU.h:561-579 | A halfword at an even address is its two bytes, low one first. |
| LcdMap.TranslationInBounds | desmume/src/MMU.cpp:327-453 | In every reachable mapping an access to 0x03000000-0x06FFFFFF is unmapped or stays in the memory it names. |
| LcdMap.CpuAndGpuAgree | desmume/src/MMU.cpp:418-452 | In the BG/OBJ range the CPU and the 2D engines reach the same byte; what is unmapped for the CPU is blank memory for the engines. |
| LcdMap.LcdcWindow | desmume/src/MMU.cpp:428-452 | In the LCDC window an address names its own byte, and is unmapped iff its page is. |
| LcdMap.PastTheBuffer | desmume/src/MMU.cpp:418-424 | Every address past the LCDC buffer is treated as 0x06800000 or 0x06880000. |
| LcdMap.SharedByteHasOneOwner | desmume/src/MMU.cpp:338-395 | For every WRAMCNT each shared work-memory byte is reachable from exactly one CPU, and from which. |
| LcdMap.Arm9VideoByte | desmume/src/MMU.cpp:418-453 | Byte o of the ARM9's video page p is byte o of the LCDC page mapped there, or unmapped. |
| LcdMap.Arm7VideoByte | desmume/src/MMU.cpp:402-416 | The ARM7's video range repeats two 128 KB slots, each showing the bank mapped there from its first byte. |
| LcdMap.Arm7WorkByte | desmume/src/MMU.cpp:338-395 | The ARM7's own 64 KB repeat from 0x03800000 on, and below it when WRAMCNT is 0. |
| LcdMap.SharedByte | desmume/src/MMU.cpp:338-395 | For each WRAMCNT and either CPU, which byte of the shared 32 KB an address below 0x03800000 reaches. |
| IpcFifo.Send | desmume/src/FIFO.cpp:41-79 | Sending refines a bounded queue of 16: ignored when disabled, an error flag when full, otherwise queued at the end; all eight fill flags of both registers stay true to the queues. |
| IpcFifo.Recv | desmume/src/FIFO.cpp:81-124 | Receiving yields the oldest value, or zero with the error flag when empty; received values stay the prefix of the accepted ones, and the fill flags stay true. |
| IpcFifo.WriteControl | desmume/src/FIFO.cpp:126-164 | A control write acknowledges, clears the send queue, takes over the writeable bits, and raises the interrupts whose condition now holds. |
| IpcFifo.RaisedTells | desmume/src/FIFO.cpp:151-158 | Each of the two interrupts is raised once iff its condition holds. |
| IpcFifo.Connect | desmume/src/FIFO.cpp:35-39 | After initialisation both queues are empty and both registers say so. |
| IpcFifo.Ring.Push | desmume/src/FIFO.cpp:61-64 | A stored value joins the queue's end with the tail at (head + size) mod 16. |
| IpcFifo.Ring.Pop | desmume/src/FIFO.cpp:102-105 | The value read at the head is the oldest one queued. |
| IpcControl.SendMasks | desmume/src/FIFO.cpp:59-69 | The masks of a send change exactly the fill fields of the two registers and clear both error flags. |
| IpcControl.RecvMasks | desmume/src/FIFO.cpp:98-112 | The same for a receive. |
| IpcControl.WriteMasks | desmume/src/FIFO.cpp:131-149 | What the masks of a control write do to the fields of both registers. |
| IpcControl.ResetWord | desmume/src/FIFO.cpp:38-38 | The initial register says both queues are empty and nothing is enabled. |
| IpcControl.FieldBits | desmume/src/FIFO.cpp:38-164 | Which bit of the register each field is. |
| GxFifo.Fifo.Send | desmume/src/FIFO.cpp:208-249 | A send appends one command, and counter and flags agree with the queue afterwards. |
| GxFifo.Fifo.Recv | desmume/src/FIFO.cpp:252-280 | A receive takes the oldest command or reports none; counter and flags agree with the queue afterwards, and a change of the fill flags reschedules. |
| GxFifo.Fifo.HandleEvents | desmume/src/FIFO.cpp:186-201 | Low, empty and stack-busy flags are recomputed from the queue, the low trigger is issued and a change reschedules. |
| GxFifo.Fifo.Clear | desmume/src/FIFO.cpp:170-184 | Clearing empties queue and counter and leaves the flags; if they agreed with the contents before, they still do iff nothing was queued. |
| GxFifo.MatrixOpsAppend | desmume/src/FIFO.cpp:232-238 | Queueing a command adds one to the number of queued matrix-stack operations iff it is 0x11 or 0x12. |
| GxFifo.MatrixOpsAre | desmume/src/FIFO.cpp:203-206 | The counter is the number of queued commands 0x11 and 0x12. |
| GxFifo.FlagsTell | desmume/src/FIFO.cpp:186-201 | Low means fewer than 128 entries, stack-busy a queued 0x11 or 0x12. |
| TextBg.RenderLineTextBG | desmume/src/GPU.cpp:1267-1405 | The tile-at-a-time renderer emits every column once, in order, each with the colour the per-pixel definition of a text background gives, in 16 and 256 colours, for all scroll offsets. |
| TextBg.Tile16Flipped | desmume/src/GPU.cpp:1315-1337 | The nibble-pair loop of a mirrored tile emits the columns of the definition. |
| TextBg.Tile16Plain | desmume/src/GPU.cpp:1338-1360 | The nibble-pair loop of a plain tile emits the columns of the definition. |
| TextBg.Tile256 | desmume/src/GPU.cpp:1383-1403 | The byte loop of a 256-colour tile, in either direction, emits the columns of the definition. |
| TextBg.MapInfoIsEntryAddr | desmume/src/GPU.cpp:1277-1289 | The incremental map address is the entry of the pixel's screen, row and column in all four map layouts. |
| TextBg.TexelThroughRow | desmume/src/GPU.cpp:1312-1312 | Reading along the tile-row pointer gives the tile's texels under both flips. |
| TextBg.NextTile | desmume/src/GPU.cpp:1301-1302 | Each tile starts where the last one ended and stays within one map entry. |
| TextBg.LineExactIff | desmume/src/GPU.cpp:1301-1302 | The line is exactly the columns asked for iff there are none or at least those of the first tile. |
| TextBg.PixelFromBytes | desmume/src/GPU.h:433-438 | A column's colour from the bytes of video memory: the two bytes of its map entry, at the place of the four map layouts, name tile, left-right flip, up-down flip and palette bit by bit, and the tile's byte or nibble the colour, transparent iff zero. |
| TextBg.FlipBitMirrors | desmume/src/GPU.cpp:1312-1388 | Setting the 0x400 bit of a map entry makes column c of its tile show what column 7 - c of the same row showed. |
| TextBg.FlipBitInverts | desmume/src/GPU.cpp:1312-1388 | Setting the 0x800 bit makes row r show what row 7 - r showed. |
| RotScale.RotScaleOp | desmume/src/GPU.cpp:163-203 | Whichever path is taken, the pixel calls are those of the affine mapping of every column. |
| RotScale.WrappedLine | desmume/src/GPU.cpp:175-193 | The wrapping fast loop makes the calls of the affine mapping. |
| RotScale.PlainLine | desmume/src/GPU.cpp:175-193 | The fast loop inside the background makes the calls of the affine mapping. |
| RotScale.GeneralLine | desmume/src/GPU.cpp:195-202 | The 32-bit fixed-point loop makes the calls of the exact affine mapping, although its coordinates overflow. |
| RotScale.IntegerIgnoresOverflow | desmume/src/GPU.h:447-457 | The signed 20-bit integer part of a coordinate does not notice 32-bit overflow. |
| RotScale.IntegerIsFloor | desmume/src/GPU.h:447-457 | Within 2^27 of the origin the integer part is the coordinate divided by 256, rounded down. |
| RotScale.ColumnShows | desmume/src/GPU.cpp:163-203 | Column i shows the background position i steps on from the start, wrapped to the size in each direction, and is skipped iff that lies outside an unwrapped background. |
| RotScale.MappedIsTheVisibleLine | desmume/src/GPU.cpp:163-203 | The mapping visits columns left to right, each at most once, and exactly those that hit the background. |
| SpriteRender.SpriteRenderPerform | desmume/src/GPU.cpp:1708-2021 | After all 128 entries every column holds the layered result of the sprites, and the object window the marks of the window sprites. |
| SpriteRender.DrawPlain | desmume/src/GPU.cpp:1961-2020 | An unrotated sprite changes a column iff it is opaque there and nearer than what was drawn before. |
| SpriteRender.DrawWindow | desmume/src/GPU.cpp:1968-1986 | An unrotated window sprite marks the window at exactly its set pixels. |
| SpriteRender.DrawRotated | desmume/src/GPU.cpp:1747-1959 | A rotated sprite does so along the affine map, clipped at either side of the screen; in 16-colour window mode it marks the window instead. |
| SpriteRender.VarsAreExact | desmume/src/GPU.cpp:1620-1668 | The clipped and mirrored walk meets exactly the visible columns, each at its own picture column. |
| SpriteRender.RotatedColumn | desmume/src/GPU.cpp:1794-1829 | The rotated walk meets exactly the visible columns, each at its place under the affine map. |
| SpriteRender.RenderSpriteBmp | desmume/src/GPU.cpp:1527-1543 | The direct-colour loop keeps, column by column, the nearer of the old pixel and the sprite's, and enters the sprite number with it. |
| SpriteRender.RenderSprite256 | desmume/src/GPU.cpp:1545-1564 | The 256-colour loop does the same through the tile layout and palette. |
| SpriteRender.RenderSprite16 | desmume/src/GPU.cpp:1566-1586 | The 16-colour loop does the same through nibbles, but leaves the sprite number. |
| SpriteRender.RenderSpriteWin | desmume/src/GPU.cpp:1588-1617 | The window loops of both colour depths mark exactly the columns with a set pixel, read through one row pointer. |
| SpriteSpec.FirstSpriteWins | desmume/src/GPU.cpp:1527-1586 | Each column shows the drawing sprite least in (priority, OAM index), or is untouched if none draws there. |
| SpriteSpec.NumberIsRightIff | desmume/src/GPU.cpp:1527-1586 | The number kept at a column is that of the sprite w shown iff w is unrotated and direct-colour or 256-colour, or the number was w before the line and no earlier such sprite was the nearest so far when drawn. |
| SpriteSpec.NumberGoesStale | desmume/src/GPU.cpp:1545-1586 | A 256-colour sprite 0 under a nearer 16-colour sprite 1: sprite 1 is shown and the number is 0, whatever it was before. |
| SpriteSpec.RotatedPictureIff | desmume/src/GPU.cpp:1818-1951 | A byte of a rotated sprite read through the one pointer is the mapped byte of its address iff the page reached follows the first in the LCDC numbering. |
| SpriteSpec.WindowRowIff | desmume/src/GPU.cpp:1588-1617 | The same for a texel of a window sprite's row. |
| SpriteSpec.WindowIff | desmume/src/GPU.cpp:1938-1951 | The object window is set iff some window sprite marks the column, where a rotated one must have a smaller priority number than every earlier sprite drawing there. |
| SpriteSpec.MarksIff | desmume/src/GPU.cpp:1938-1951 | Priority matters to one window sprite exactly in that way. |
| SpritePictures.SizesByShape | desmume/src/GPU.cpp:76-81 | Width and height for each shape and size. |
| SpritePictures.RowReachesTexel | desmume/src/GPU.cpp:1961-2015 | Row pointer plus column offset is the texel's byte: in one-dimensional mapping in tile (row / 8) * (width / 8) + col / 8 behind the sprite's own, in two-dimensional mapping 1024 bytes per row of tiles. |
| SpritePictures.PictureReachesTexel | desmume/src/GPU.cpp:1818-1923 | Picture pointer plus offset of a rotated sprite is the same byte. |
| SpritePictures.PlacesAreDistinct | desmume/src/GPU.cpp:1545-1586 | Texels of a one-dimensional picture share a byte only when they are the two nibbles of it. |
| SpritePictures.PlaceRoundTrip | desmume/src/GPU.cpp:1545-1586 | The byte number of a texel determines its column and row. |
| SpritePictures.PositionRoundTrip | desmume/src/GPU.cpp:1545-1586 | Every one of the width * height bytes, or half as many, is a texel's. |
| SpritePictures.PlaceInPicture | desmume/src/GPU.cpp:1545-1586 | No texel lies outside them. |
| SpritePictures.BmpRowReaches | desmume/src/GPU.cpp:1680-1698 | Rows of direct-colour pictures are the sprite's width apart, or 256 or 128 pixels with tiles of 8 rows. |
| SpritePictures.UnrotatedPixel | desmume/src/GPU.cpp:1961-2020 | Column u and line v of an unrotated sprite show picture column u or width - 1 - u and row v or height - 1 - v as its flips say, in the colour of the picture's byte, nibble or halfword. |
| SpritePictures.NothingBeside | desmume/src/GPU.cpp:1620-1668 | A disabled sprite, and any sprite beside its field, shows and marks nothing. |
| SpritePictures.WindowPixel | desmume/src/GPU.cpp:1968-1986 | An unrotated window sprite marks the columns whose texel is set, where its row stays in its pages. |
| SpritePictures.RotatedPixel | desmume/src/GPU.cpp:1778-1792 | A rotated sprite shows the picture position its four parameters take the field position to, about the middle, and twice as large a field in double-size mode; the parameters are attr3 of four entries numbered by index and flips. |
| SpritePictures.IdentityShowsPicture | desmume/src/GPU.cpp:1747-1959 | With the identity parameters that is the unrotated picture, unmirrored. |
| SpritePictures.SamePicture | desmume/src/GPU.cpp:1833-1905 | The rotated loops show the unrotated colours, but enter no number and give direct colours one step less opacity. |
| SpritePictures.RotatedRowsIff | desmume/src/GPU.cpp:1865-1885 | The rotated direct-colour loop reads a pixel where the picture has it iff the picture is mapped one-dimensionally or 256 pixels wide, or the row is the first. |
| Windows.Replay | desmume/src/GPU.cpp:2528-2596 | Over any history of register writes and lines, every line sees the flags that the registers written so far call for: the cached window line is never noticed. |
| Windows.Window.Perform | desmume/src/GPU.cpp:2944-2948 | One write or line set-up keeps the cache right or marked stale, and a line set-up gives the in-window flags. |
| Windows.Window.UpdateWINH | desmume/src/GPU.cpp:2162-2200 | The three fill loops produce the horizontal in-window flags, for ordered and for wrapped bounds. |
| Windows.Window.SetupWindows | desmume/src/GPU.cpp:2134-2159 | A line reads the cached flags iff the window is enabled and contains the line, else an empty line. |
| Windows.CheckWindows | desmume/src/GPU.cpp:800-851 | A pixel's layer and effect bits come from window 0, window 1, the object window or the outside, in this order. |
| Windows.RegionsInOrder | desmume/src/GPU.cpp:800-851 | What lies in window 0 is decided by its mask alone, then window 1, then the object window, and the outside mask holds only while one of them is enabled. |
| Windows.WindowFromRegisters | desmume/src/GPU.cpp:2134-2200 | After writes to its registers an enabled window is the rectangle from the high bytes to the low ones, half open, or wrapping around and then closed; a disabled one is empty. |
| Windows.LayerBitIs | desmume/src/GPU.cpp:800-851 | Bit k of a layer mask is layer k's. |
| ScaleCuts.FloatCutsPartitionIff | desmume/src/GPU.cpp:4387-4409 | For every size a float holds exactly, the ceilings of the single-precision products leave no share empty, and they make up the whole size iff it is a width, a height of at most 65536 native heights, or a height divisible by 2 or 3. |
| ScaleCuts.ProductsClose | desmume/src/GPU.cpp:4387-4388 | What the rounding of the quotient and of the product adds up to: at most 0x30000 / 2n units of the last place of the scale. |
| ScaleCuts.WidthCutsAreExact | desmume/src/GPU.cpp:4387-4401 | Up to 65535 wide, the single-precision cuts of the width are ceil(k * w / 256). |
| ScaleCuts.HeightCutsNearExact | desmume/src/GPU.cpp:4388-4409 | Up to 128 times the native size a cut is ceil(k * size / n), or one more exactly where k * size / n is whole and the rounded product lies above it. |
| ScaleCuts.CutRoundedUp | desmume/src/GPU.cpp:4388-4409 | At 208 lines the 108th cut is 118 and not 117. |
| ScaleCuts.Located | desmume/src/GPU.cpp:4395-4409 | Every destination position lies in the share of exactly one source position. |
| ScaleCuts.ExactCutsPartition | desmume/src/GPU.cpp:4387-4409 | With exact scale factors the shares are nonempty, cover the axis, and position t shows floor(t * n / size). |
| ScaleCuts.RoundedCutsPartition | desmume/src/GPU.cpp:4387-4409 | Ceilings of products within a given error of the exact ones leave no share empty, and make up the size iff the last one does. |
| SinglePrecision.SingleExact | desmume/src/GPU.cpp:4397-4397 | Rounding to single precision leaves numbers of at most 24 significant bits as they are. |
| SinglePrecision.ScaleIsSingle | desmume/src/GPU.cpp:4387-4388 | The scale is a 24-bit multiple of its unit in the last place. |
| Upscale.SetCustomFramebufferSize | desmume/src/GPU.cpp:4378-4431 | A size below 256x192 is ignored; for every other one whose last cuts come out right, counts and starts follow the single-precision cuts, and each destination cell names the one native pixel in whose share it lies. |
| Upscale.FillAxis | desmume/src/GPU.cpp:4395-4409 | Counts are at least one and starts are their prefix sums, at the ceilings of the single-precision products. |
| Upscale.FillTable | desmume/src/GPU.cpp:4418-4431 | The fourfold loop gives every cell its one source pixel. |
| Upscale.SourcePixel | desmume/src/GPU.cpp:4427-4427 | Every table entry is a native pixel number, so it fits 16 bits. |
| Upscale.Blit | desmume/src/GPU.cpp:2681-2717 | Copying line by line makes every destination pixel the native pixel that the table names, for the same cuts. |
| Upscale.BlitLine | desmume/src/GPU.cpp:2691-2713 | One native line fills its destination rows, the later ones being copies of the first. |
| CacheModel.ShortcutInvisibleIff | desmume/src/MMU_timing.h:86-93 | Over any trace the cache reports what one without the shortcut reports iff every shortcut is taken by an address that is in its set. |
| CacheModel.InvisibleIffRecent | desmume/src/MMU_timing.h:86-160 | The same iff every shortcut is taken by an address whose tag is among the last four allocated in its set. |
| CacheModel.ShortcutCanLie | desmume/src/MMU_timing.h:89-91 | Two reads 2 KB apart: the second misses but is reported as a hit. |
| CacheModel.SameTagIsJustified | desmume/src/MMU_timing.h:86-160 | Shortcuts taken with the tag that last set the remembered address are always right. |
| CacheModel.SetterStaysResident | desmume/src/MMU_timing.h:142-158 | That tag stays in its set until another access takes over. |
| CacheModel.SetHoldsLastAllocated | desmume/src/MMU_timing.h:152-158 | A set holds exactly the last four tags that read misses brought in. |
| CacheModel.WaysInPlace | desmume/src/MMU_timing.h:152-158 | After n allocations the next way is n mod 4, allocation j is in way j mod 4 while among the last four, and the other ways are empty: the whole set, way by way, is given by the allocations. |
| CacheModel.TagsStayDistinct | desmume/src/MMU_timing.h:142-160 | The tags of a set stay pairwise distinct, apart from ways still empty. |
| CacheModel.ReplaceNextWay | desmume/src/MMU_timing.h:155-156 | Replacing the next way in place drops the oldest tag of the queue and appends the newest. |
| CacheModel.AddressParts | desmume/src/MMU_timing.h:134-167 | An address splits into its tag, the number of its set and its place in a block of 32 bytes. |
| CacheModel.CacheController.CachedInternal | desmume/src/MMU_timing.h:134-160 | The scan over ways answers and updates like the queue model. |
| CacheModel.CacheController.Lookup | desmume/src/MMU_timing.h:86-93 | The lookup with its shortcut answers and updates like the model, and only a read miss allocates. |
| RegList.RegList | desmume/src/Disassembler.cpp:239-266 | The loop prints the runs of set bits as ranges, in at most four characters per register, so 64 for the whole file. |
| RegList.PrintedListDecodes | desmume/src/Disassembler.cpp:239-266 | Reading a printed list back gives exactly the set bits among the first nb. |
| RegList.RunsAreTheBits | desmume/src/Disassembler.cpp:243-264 | The runs cover exactly the set bits. |
| RegList.RunsAreMaximal | desmume/src/Disassembler.cpp:243-264 | No two runs touch, so each is as long as it can be. |
| RegList.NameTells | desmume/src/Disassembler.cpp:46-63 | The names are R and the number, SP, LR and PC. |

## Left out

- CPU instructions, the JIT, 3D, sound, wifi, cartridge, touch and file I/O: not part of this model.
- ArmLoop.Machine.ArmcpuExec: an instruction is an arbitrary outcome of cost at least one; the clocks are unbounded integers where the source casts differences to 32 bits.
- Sequencer: the units other than those modelled here take part only by their due times; the vertical-blank break of the frame loop and interrupt delivery are not modelled.
- Scanline: drawing, sound, 3D signals, frame skipping and the load average are not modelled, nor is rigorous-timing mode; the closed forms of `ExecHardware` hold for runs without a VCOUNT write.
- Timers.TimerUnit.WriteTimer: a chained timer's overflow time comes from a shift by 65535 whose value is arbitrary; it is a parameter.
- Timers.RunningTimerReads: the reading at the start instant is stated separately, because the closed form does not hold there.
- Dma: transfers are logged as addresses; the data, the access times and the access-time model are parameters.
- Dma.RunConserves: stated for non-repeating channels with a nonzero count; `RequestHonouredIff` shows what a zero count does.
- GxFifo.Fifo.Send: requires a free slot, as the source does not check for overflow.
- IpcFifo: 8-bit register writes, which bypass these functions, are not modelled.
- VramMapper: the texture-change signal to the 3D renderer is not modelled.
- TextBg.RenderLineTextBG: requires at most 65528 columns, because the source cuts x + 8 to 16 bits and would not end beyond; mosaic is not modelled.
- RotScale: the pixel functions behind the callback are not modelled.
- SpriteRender: the three rotated loops take the lookup of their colour format as a function value, so they are one method; the unused rendering-cost counter and mosaic are not modelled.
- Windows: blending effects behind the effect bit are not modelled.
- Upscale.SetCustomFramebufferSize: sizes of 2^24 and more, which the conversion to single precision rounds, and heights whose last cut misses the size (`Fits`) are left out. The capture-line table is not modelled.
- CacheModel: cycle counts derived from hits are not modelled.
- RegList: the texts around the list that the instruction handlers print are not modelled.
- SSE variants and big-endian branches: the scalar little-endian code is modelled.
- Save states and debugging output are not modelled.
