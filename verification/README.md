# Henry's hardware protocols, proved in Dafny

This project models the clocked machines and stream formats at the centre of henry, an SGI IP22
on an FPGA, and proves what each is for over all inputs and all runs:

- **AXI master** (`Axi*.dfy`): two request engines share one AXI port through ownership locks. A
  same-line interlock keeps the two AXI IDs from reordering conflicting accesses. The machine is
  proved to be one plain sequential memory, stated opcode by opcode, its channels to follow the AXI
  rules, and every held request to be served.
- **Capture window** (`Gio*.dfy`): processor and VDMA accesses become numbered records in a ring
  that an ARM consumes and answers. The window is proved invisible: loads see the device after
  exactly the earlier records, and each record tells its access byte by byte. Ring safety,
  publication, markers, progress under any delays and the limits of its 32-bit numbers are proved
  too.
- **Trace engine** (`Bits`, `Trace*.dfy`): a dual-retire encoder, a bit packer, a banked FIFO and
  a circular ring, with the bench's decoder on the other side: a bit-level round trip from the
  retire slots to the decoded PCs, and a drain that gets everything out.
- **Snoop shim** (`Snoop*.dfy`): snoop, access, snoop again, against a cache that may refill, be
  stored to or evict at any instant: what loads return, what stores leave, and that each is answered.
- **VDMA walk** (`Vdma*.dfy`): two reference programs, the closed form they compute, and the DMA
  engine's clocked channel that caches pages and lines.
- **Retire trace file** (`Ctrace*.dfy`): the chunked columnar writer, its reader, and the bytes
  between them.
- **SCSI service** (`Scsi*.dfy`): chunked transfers with pause and resume.

Each machine is a class whose `Clock` (or per-call) methods update its fields in place and are
proved equal to a next-state function; the theorems are about that function, over every sequence
of inputs. The `*Meaning` files and `CtraceBytes` say what opcodes, masks, register fields, retire
slots and file bytes mean without the machines' own decoding. The environment (memory, cache, ARM,
requesters) is a nondeterministic input of each step, restricted only as the protocol restricts it.
`Prelude`, `Modular` and `LittleEndian` hold shared arithmetic.

## What the proofs found

- An end pulse that arrives before its transfer's BEGIN is out breaks the marker brackets, and
  nothing else does (`GioMarkers.BracketsIff`): END comes before BEGIN
  (`GioMarkers.EmptyTransferInverts`), or one END is lost (`GioMarkers.BackToBackLosesEnd`). For
  whole runs this is `GioMarkers.OrderlyIff`; a doubleword per transfer is enough to avoid it
  (`GioMarkers.NonEmptyTransfersBracket`).
- The capture window compares 32-bit record numbers. A load whose number is a multiple of 2^32
  after the last one answered takes that one's answer (`GioAliasing.StaleAnswer`); apart from that
  every load is right (`GioAliasing.PrematureIff`, `GioEndToEnd.EndToEnd`).
- The trace ring stays inside its region exactly when its size is a positive multiple of 16
  (`TraceRuns.StaysInsideIff`, `TraceRuns.LeavesRegion`).
- Stores and exceptions logged after the last chunk of a retire trace are lost when no record
  follows them before close (`CtraceRoundTrip.RoundTrip`, `CtraceRoundTrip.LoneStoreLost`), and a
  file cut inside a column table gives nothing, although the format promises every completed chunk
  (`CtraceRoundTrip.CutFileGivesCompleteChunks`, `CtraceRoundTrip.CutInTable`). The reader's
  exception count includes columns of a chunk it then discards.
- A SCSI write in chains that are not multiples of 512 bytes leaves data in the wrong place and
  blocks unwritten, and is still answered COMPLETE (`Scsi.ReachesDiskIff`,
  `Scsi.UnalignedWriteMisplaces`).
- A processor store between the two snoops of a device write can replace the device's data: a copy
  still dirty at the second snoop is written back over it (`SnoopCoherence.RacingStoreWins`), as the
  shim's header says the guest must avoid.

## Model

| member | source | states |
|---|---|---|
| AxiRefinement.LinearizableMemory | ip_hdl/axi_is_the_worst_v1_0_M00_AXI.v:524-751 | **Main.** For every run of both lanes against a slave that samples each read beat and applies each write beat at any instant the handshakes allow, in any order across IDs: every response equals that of one sequential memory performing each access atomically at its acceptance (0xA5 beats and the error flag out of range, no effect of an out-of-range write); responses come once each and in lane order; with both lanes idle DRAM is that memory |
| AxiMeaning.MemoryByOpcode | ip_hdl/axi_is_the_worst_v1_0_M00_AXI.v:524-751 | **Main.** That memory told from opcode, address and lane alone: 4 answers one 16-byte beat and 7 replaces one under its mask on both lanes; 5 answers the four beats of the 64-byte line and 6 replaces them whole on the device lane; no other access is ever accepted; out of range every byte answered is 0xA5 and nothing is stored; every response in every run, and DRAM with both lanes idle, is that memory's |
| AxiMeaning.LoggedAsAsked | ip_hdl/axi_is_the_worst_v1_0_M00_AXI.v:542-622 | what a lane takes is exactly the request on its wires, and only of an opcode it knows |
| AxiMeaning.AcceptsKnown | ip_hdl/axi_is_the_worst_v1_0_M00_AXI.v:542-556 | a lane accepts if and only if it is idle, knows the opcode and has no hazard |
| AxiMeaning.WaitsOnlyForConflict | ip_hdl/axi_is_the_worst_v1_0_M00_AXI.v:549-556 | **Main.** An idle lane takes the known request on its wires at once unless, and only unless, it is on one 64-byte line with the access the other lane is working for, or takes in that cycle ahead of it, a store among the two |
| AxiMeaning.BusAddress | ip_hdl/axi_is_the_worst_v1_0_M00_AXI.v:518-541 | the bus address and the fault verdict for every base, from the base, the fold and the mask |
| AxiMeaning.PerformIsMeant | ip_hdl/axi_is_the_worst_v1_0_M00_AXI.v:563-622 | one access's effect on memory, beat by beat |
| AxiMeaning.AnswerIsTold | ip_hdl/axi_is_the_worst_v1_0_M00_AXI.v:711-742 | one access's answer, beat by beat |
| AxiMeaning.FaultTiming | ip_hdl/axi_is_the_worst_v1_0_M00_AXI.v:600-678 | an access outside DRAM touches no channel and is answered as a fault at the seventeenth edge after its acceptance, whatever is on the wires |
| AxiMeaning.FaultMarked | ip_hdl/axi_is_the_worst_v1_0_M00_AXI.v:600-622 | until then the address register holds its beat's address marked 1 for a store, 2 for a load |
| AxiRefinement.ApartStep | ip_hdl/axi_is_the_worst_v1_0_M00_AXI.v:549-552 | the interlock, same-cycle accepts included: two busy lanes are never on one 64-byte line with a write among them |
| AxiRefinement.NoOverlap | ip_hdl/axi_is_the_worst_v1_0_M00_AXI.v:549-556 | so no beat still pending in one lane is covered by the other lane's access |
| AxiRefinement.OverlayStep | ip_hdl/axi_is_the_worst_v1_0_M00_AXI.v:597-687 | a clock edge of a lane and its slave port keeps the value each address will have once the lane's pending beats land |
| AxiRefinement.CoherentStep | ip_hdl/axi_is_the_worst_v1_0_M00_AXI.v:581-751 | memory overlaid with both lanes' pending beats stays the sequential memory across an edge, acceptances performed |
| AxiRefinement.ActKeepsInv | ip_hdl/axi_is_the_worst_v1_0_M00_AXI.v:563-575 | a memory effect at any instant (a beat sampled or applied) keeps the refinement invariant |
| AxiRefinement.ResponseStep | ip_hdl/axi_is_the_worst_v1_0_M00_AXI.v:631-678 | a response carries what its access must be answered |
| AxiRefinement.RunOrdered | ip_hdl/axi_is_the_worst_v1_0_M00_AXI.v:597-687 | acceptances and responses of a lane alternate, in every run |
| AxiChannels.ChannelsInEveryRun | ip_hdl/axi_is_the_worst_v1_0_M00_AXI.v:224-280 | **Main.** In every cycle of every run: AR/AW/W payloads stay valid and unchanged until taken; write data follows address order, one burst at a time, WLAST exactly on beat AWLEN; `r_w_busy` exactly when one lane, the owner, is in WD; R and B find their lane in RD or WB; each lane is overtaken at most once at the AR channel, the AW/W channel and the hazard check (lane 0 never at the last), and a held request is accepted at most once (that it is accepted and answered: `AxiService.RequestsAreServed`) |
| AxiService.RequestsAreServed | ip_hdl/axi_is_the_worst_v1_0_M00_AXI.v:224-687 | **Main.** From every reachable state, with a slave that withholds nothing it owes for b cycles and one request held on a lane: after 66 * b cycles it has been accepted exactly once (not again if it was in flight) and answered exactly once, whatever the other lane's requester does; the lane waits for it to be dropped |
| AxiService.DueStep | ip_hdl/axi_is_the_worst_v1_0_M00_AXI.v:224-687 | one cycle brings a held request nearer its response, hazard and channel arbitration included, or the slave withholds what the request waits for |
| AxiService.FlightStep | ip_hdl/axi_is_the_worst_v1_0_M00_AXI.v:224-678 | the same for an accepted access: handshakes left and turns of the other lane |
| AxiService.DropReleases | ip_hdl/axi_is_the_worst_v1_0_M00_AXI.v:680-683 | an answered lane is idle in the cycle after its requester drops the request |
| AxiChannels.PayloadsStable | ip_hdl/axi_is_the_worst_v1_0_M00_AXI.v:228-248 | payload stability (ARM IHI 0022 section A3.2.1) over one edge |
| AxiChannels.DisciplineHolds | ip_hdl/axi_is_the_worst_v1_0_M00_AXI.v:237-251 | write order, WLAST, and that always-ready R and B lose nothing |
| AxiChannels.CountStep | ip_hdl/axi_is_the_worst_v1_0_M00_AXI.v:228-278 | the overtaking bound over one edge, despite lane 0's fixed priority |
| AxiBus.FoldCopiesAgree | sim/henry_tb.cpp:745-755 | the RTL's and the bench's address fold give the same offset and fault verdict for every address |
| AxiBus.FoldCollisions | ip_hdl/axi_is_the_worst_v1_0_M00_AXI.v:524-540 | exactly which two addresses fold together: only the low 128 MB with its alias |
| AxiBus.FoldInjective | ip_hdl/axi_is_the_worst_v1_0_M00_AXI.v:524-540 | the fold is injective on 0x08000000..0x1fffffff |
| AxiBus.InSpace | ip_hdl/axi_is_the_worst_v1_0_M00_AXI.v:542-549 | every beat of an access lies in the space and in the access's own 64-byte line |
| AxiLane.Engine.constructor | ip_hdl/axi_is_the_worst_v1_0_M00_AXI.v:692-704 | reset values; data registers are not reset |
| AxiLane.Engine.Accept | ip_hdl/axi_is_the_worst_v1_0_M00_AXI.v:600-622 | an acceptance latches the request, marking an out-of-range one |
| AxiLane.Engine.Progress | ip_hdl/axi_is_the_worst_v1_0_M00_AXI.v:624-682 | the non-idle states |
| AxiLane.Engine.TakeBeat | ip_hdl/axi_is_the_worst_v1_0_M00_AXI.v:711-738 | a read beat goes into its lane's slot, the last one is the response |
| AxiLane.Engine.Tick | ip_hdl/axi_is_the_worst_v1_0_M00_AXI.v:669-742 | the 0xA5 poison and the error response after sixteen ticks |
| AxiLane.Engine.Clock | ip_hdl/axi_is_the_worst_v1_0_M00_AXI.v:581-751 | one clock of a lane is the lane's next-state function |
| AxiMaster.Master.constructor | ip_hdl/axi_is_the_worst_v1_0_M00_AXI.v:255-263 | reset of locks and lanes |
| AxiMaster.Master.Clock | ip_hdl/axi_is_the_worst_v1_0_M00_AXI.v:224-280 | one clock of the master: both lanes on their inputs, and the channel locks |
| GioEndToEnd.DeviceRefinement | rtl/gio_window.sv:119-242 | **Main.** Without VDMA, over every run with one access outstanding, an ARM that consumes published records in order and writes the sequence register last, and no load numbered a non-zero multiple of 2^32 after the last one answered: each access completes exactly once and every load returns what the device answers to records that tell, byte by byte, exactly the accesses up to it in program order |
| GioStream.AccessesTold | rtl/gio_window.sv:119-235 | **Main.** In every run, whatever VDMA and ARM do: the processor's records are the accesses it handed over, in order, each told once: kind, window space, number, the enabled half of the line with its mask, and for a store each of that half's bytes |
| GioStream.DoublewordsTold | rtl/gio_window.sv:119-235 | **Main.** In every run each VDMA doubleword taken is one record, in order, with its address, all eight bytes and its number, and nothing else is such a record |
| GioMeaning.CpuRecTells | rtl/gio_window.sv:122-132 | the record built of an access tells it: the half with byte enables, its place in the 8 KB window, its eight bytes; a READ carries no data |
| GioMeaning.DmaRecTells | rtl/gio_window.sv:122-132 | the record built of a doubleword tells it |
| GioMeaning.TellsOne | rtl/gio_window.sv:122-132 | only one record tells an access under a number |
| GioMeaning.QueuedTells | rtl/gio_window.sv:122-235 | the record of a cycle tells its source, markers included |
| GioEndToEnd.EndToEnd | rtl/gio_window.sv:119-242 | **Main.** With any VDMA traffic too, under the same condition: the records are the accesses in program order, one completion each, and a load holds the device's answer after exactly the records up to its own |
| GioEndToEnd.AnsweredIff | rtl/gio_window.sv:236-241 | the window takes the answer registers exactly when awaited and last answered READ agree modulo 2^32, so a stale answer exactly when they are a non-zero multiple of 2^32 records apart |
| GioAliasing.PrematureIff | rtl/gio_window.sv:207-241 | the condition of the two theorems above is exact: over every run, it holds if and only if no load completes before the ARM has answered it |
| GioAliasing.AliasTakesStale | rtl/gio_window.sv:207-241 | in any run, the first time it fails the load completes at the next edge with the registers of an earlier answer |
| GioAliasing.StaleIff | rtl/gio_window.sv:119-242 | a load answered, m stores each consumed at once, and another load: the second completes in the cycle after it is numbered if and only if m + 1 is a multiple of 2^32, and then with the first one's answer, for every device and ring size |
| GioAliasing.StaleAnswer | rtl/gio_window.sv:207-241 | so 2^32 - 1 stores make a load return 0 where the device answers 1 |
| GioEndToEnd.ShortRuns | rtl/gio_window.sv:236 | runs of fewer than 2^32 records never alias |
| GioEndToEnd.ServingArm | sim/gio_window_test/tb_gio_window.cpp:108-140 | each step of the in-order ARM keeps: it has seen a prefix of the stream, and the answer registers are right before the number says so |
| GioRing.RingSafe | rtl/gio_window.sv:245-333 | **Main.** In every reachable state: written + queued = numbered, consumed <= published <= written, at most RING_N numbered and unconsumed; record n sits intact in slot (n-1) mod RING_N until consumed, single writes and 64-byte bursts alike; records carry their own numbers |
| GioRing.ReadPublishedNext | rtl/gio_window.sv:263-305 | at most PROD_EVERY + 3 written records are unpublished, and once a record of kind READ is in ring memory nothing is written before the index write that covers it |
| GioRing.PublishesIff | rtl/gio_window.sv:261-275 | an idle writer writes the index if and only if something is unpublished and a READ is among it, the queue is empty or PROD_EVERY are unpublished; else a burst if and only if four records are queued at a 64-byte line |
| GioRing.WriterStep | rtl/gio_window.sv:261-330 | the writer's own step: burst alignment, publication bound, READ first |
| GioRing.SlotWritten | rtl/gio_window.sv:253-325 | a ring write lands in the slots of exactly the records leaving the queue and touches no unconsumed one |
| GioRing.ArmKeepsRing | sim/gio_window_test/tb_gio_window.cpp:117-139 | consuming takes the next record of the stream |
| GioSystem.SlotOf | rtl/gio_window.sv:253 | the slot from the wrapped 32-bit counter is the slot of the true count, RING_N dividing 2^32 |
| GioSystem.BurstFits | rtl/gio_window.sv:269-310 | a burst from a multiple of four never wraps the ring |
| GioMarkers.MarkersBracket | rtl/gio_window.sv:147-235 | **Main.** In every orderly run BEGIN and END alternate, every VDMA doubleword lies in its own pair, and an access issued after a begin or end pulse is recorded after that marker; full queue and back-to-back transfers included |
| GioMarkers.NonEmptyTransfersBracket | rtl/gio_window.sv:147-235 | **Main.** Every run in which each transfer moves a doubleword is orderly, so all of that holds |
| GioMarkers.NonEmptySuffices | rtl/gio_window.sv:227-234 | a doubleword is taken only once its BEGIN is out |
| GioMarkers.OrderlyIff | rtl/gio_window.sv:147-235 | **Main.** A run within the source's protocol keeps the brackets after every cycle if and only if no end pulse arrives before its BEGIN is out |
| GioMarkers.BracketsIff | rtl/gio_window.sv:147-235 | in every legal cycle from a bracketed state the brackets are kept if and only if no end pulse arrives before its BEGIN is out |
| GioMarkers.InvertsIff | rtl/gio_window.sv:147-181 | what such a pulse does, exactly: END and BEGIN wait the wrong way round unless an earlier END still waits, when one END is lost; a begin pulse in the same cycle is lost too; nothing else does any of this |
| GioMarkers.InvertedBreaks | rtl/gio_window.sv:150-181 | once they wait the wrong way round the next record is END and the brackets are broken, whatever follows |
| GioMarkers.EmptyTransferInverts | rtl/gio_window.sv:150-181 | a concrete run that inverts, its pulses spaced as the VDMA engine spaces them: a transfer of no doublewords against a full queue |
| GioMarkers.BackToBackLosesEnd | rtl/gio_window.sv:147-181 | a concrete legal run, spaced the same way, that loses an END: an empty transfer after another, the queue full |
| GioProgress.Settles | rtl/gio_window.sv:207-277 | **Main.** From every state of the end-to-end invariant in which no awaited or held load aliases, in every run without new accesses in which no request of the writer and no work of the ARM goes unserved for b cycles: after b * Work cycles held accesses and awaited READs have completed and index, ring and ARM have caught up, whatever the delays |
| GioProgress.CalmStep | rtl/gio_window.sv:207-277 | no such cycle adds work, and one takes some away when memory answers a waiting writer, an idle writer has something to do, the ARM does what is due, or only numbers and a waiting answer are left |
| GioProgress.ArmWork | sim/gio_window_test/tb_gio_window.cpp:108-140 | no move of the ARM adds work and one that is due takes some away |
| GioProgress.IdleMeansPublished | rtl/gio_window.sv:263-268 | an idle writer stays idle if and only if nothing is queued and published, written and numbered agree |
| GioProgress.SettlesAtOnce | rtl/gio_window.sv:207-277 | with memory and ARM prompt, Work cycles are enough |
| GioTransfers.DoublewordGoes | rtl/gio_window.sv:227-234 | **Main.** A VDMA doubleword that goes on being offered is recorded within b * Work + 1 cycles under the same schedules, whatever was queued, held or waiting before it |
| GioTransfers.GoesIff | rtl/gio_window.sv:147-234 | in every reachable cycle an offered doubleword is recorded if and only if no BEGIN waits, no access is new or held (unless END holds it back), and queue and ring have room |
| GioRecord.RecordRoundTrip | sim/gio_window_test/tb_gio_window.cpp:117-131 | the ARM's shifts and masks read back exactly the sixteen bytes' record |
| GioRecord.OffsetsFit | rtl/gio_window.sv:122-132 | every record the window makes has an offset that fits its field |
| GioWindow.QueueBound | rtl/gio_window.sv:150-234 | at most one record enters per clock, none into a full queue |
| GioWindow.CircularStep | rtl/gio_window.sv:331-341 | moving head and count of the circular queue is dropping and appending on the sequence |
| GioWindow.Window.Choose | rtl/gio_window.sv:150-234 | which source enters the queue |
| GioWindow.Window.Build | rtl/gio_window.sv:122-132 | the record it enters with is the built one, which `GioMeaning` relates to the bytes on the wires |
| GioWindow.Window.Complete | rtl/gio_window.sv:182-242 | done, wait and the answer |
| GioWindow.Window.Drain | rtl/gio_window.sv:245-330 | the writer's registers and how many records leave |
| GioWindow.Window.MoveQueue | rtl/gio_window.sv:331-341 | the four-slot array and its pointers |
| GioWindow.Window.Clock | rtl/gio_window.sv:119-384 | one clock of the window is its next-state function |
| TraceRuns.TraceDecodes | sim/henry_tb.cpp:3325-3352 | **Main.** In codec mode, without overflow and before ring or byte counter wraps, the bench's decoder run on the bytes the engine reports returns every PC of a valid retire slot that the filters choose and whose code lies wholly in them, in order, and at most one value more, for every retire sequence |
| TraceRuns.StreamIsCode | rtl/dram_trace.sv:97-244 | **Main.** Without overflow, DRAM, FIFO, packer and append register together hold exactly the code of the PCs of the valid retire slots, first slot before second, that the filters choose; the packer holds less than a beat |
| TraceRuns.OverflowTellsLoss | rtl/dram_trace.sv:282-311 | the overflow flag is up if and only if a beat was lost |
| TraceRuns.LoadsInOrder | rtl/dram_trace.sv:118-131 | in load mode the beats spell PC, value and address of the valid retired loads that the filters choose, in program order |
| TraceProgress.Drains | rtl/dram_trace.sv:302-330 | **Main.** From every reachable state, once nothing retires and memory keeps no store waiting for b clocks: after b clocks for each of at most 131 steps the FIFO is empty and, without overflow, memory holds all of the expected trace but less than one beat, or all of the loads |
| TraceProgress.QuietStep | rtl/dram_trace.sv:203-330 | each such clock takes a step away unless memory keeps a store waiting |
| TraceMeaning.ClockTraces | rtl/dram_trace.sv:97-118 | one clock adds exactly the valid slots that the filters choose, slot 0 before slot 1 |
| TraceMeaning.ClockLoads | rtl/dram_trace.sv:118-131 | and in load mode exactly the records of the loads among them |
| TraceMeaning.UnfilteredCount | rtl/dram_trace.sv:97-101 | with the filters off every valid slot is in the trace |
| TraceRuns.RingHoldsLast | rtl/dram_trace.sv:302-330 | for a size that is a positive multiple of 16 the ring holds exactly the last min(bytes, size) bytes, beat k at 16 * (k mod size/16) |
| TraceRuns.StaysInsideIff | rtl/dram_trace.sv:325-328 | once it has gone round, the drain has stayed inside the region if and only if the size is a positive multiple of 16 |
| TraceRuns.LeavesRegion | rtl/dram_trace.sv:302-328 | for every other size a run that stores past the end: size/16 + 1 loads (two for a size of 24) |
| TraceRuns.NextPlace | rtl/dram_trace.sv:327 | the wrap by comparison is a cycle of max(1, ceil(size/16)) places for any size, also at the top of the address space |
| TraceRuns.PackStep | rtl/dram_trace.sv:203-244 | one clock of the packer moves bits, adds the new codes at the end and loses none |
| TraceRoundTrip.DecodesPrefix | sim/henry_tb.cpp:3333-3352 | the decoder inverts the code on every prefix of a stream's bits |
| TraceRoundTrip.WholeIsGreatest | sim/henry_tb.cpp:3344 | that many codes fit in the prefix and one more does not |
| TraceRoundTrip.CodeReads | sim/henry_tb.cpp:3344-3350 | one code is read back to its PC and the position after it |
| TraceRoundTrip.CodeCut | sim/henry_tb.cpp:3338-3349 | a code cut short is read to the end of the bits |
| TraceRoundTrip.LebReads | sim/henry_tb.cpp:3338-3340 | the LEB128 loop reads what the groups spell (DWARF Version 4 section 7.6) |
| TraceRoundTrip.ZigzagInverts | rtl/dram_trace.sv:134-135 | zigzag and the 32-bit difference invert for every pair of PCs |
| TraceCodec.WiresCarryCode | rtl/dram_trace.sv:134-149 | the code wires hold the code in their low bits and zeros above |
| TraceCodec.EncodeSnoc | rtl/dram_trace.sv:144-189 | one more PC appends its code |
| TraceDecoder.Reader.GetBit | sim/henry_tb.cpp:3333-3335 | one bit or the end |
| TraceDecoder.Reader.GetBits | sim/henry_tb.cpp:3336-3337 | the value of up to n bits |
| TraceDecoder.Reader.GetLeb | sim/henry_tb.cpp:3338-3340 | the LEB128 loop with its three exits |
| TraceDecoder.Reader.NextPc | sim/henry_tb.cpp:3345-3349 | one PC |
| TraceDecoder.Reader.Run | sim/henry_tb.cpp:3341-3352 | the decoder's main loop is the recursive decoder |
| TraceFifo.BankedFifo.Push | rtl/dram_trace.sv:282-298 | up to two writes, at most one per bank, are appending to one queue; what does not fit is dropped |
| TraceFifo.BankedFifo.Pop | rtl/dram_trace.sv:322-326 | a pop drops the queue's first beat |
| TraceFifo.BankedFifo.Clock | rtl/dram_trace.sv:246-326 | the two banks are one 64-entry queue; drop exactly when it would overflow |
| TraceFifo.BankedFifo.Head | rtl/dram_trace.sv:299-300 | the read port shows the queue's first beat |
| TraceFifo.CellsApart | rtl/dram_trace.sv:289-298 | records less than 64 apart never share a bank and slot, sequence wrap included |
| TracePipeline.AppendIsCode | rtl/dram_trace.sv:151-176 | the append word is the clock's codes end to end, at most 82 bits, for 0, 1 or 2 retires |
| TracePipeline.PackerKeepsOk | rtl/dram_trace.sv:203-244 | append and accumulator never have a bit above their counters, and the packer stays under 128 bits |
| Bits.OrAppends | rtl/dram_trace.sv:175-219 | or-ing in a shifted word appends its bits and nothing else |
| TracePipeline.Tracer.constructor | rtl/dram_trace.sv:334-351 | the state after reset or while unarmed |
| TracePipeline.Tracer.EncodeRetires | rtl/dram_trace.sv:133-200 | the encoder and the append register |
| TracePipeline.Tracer.MakeBeats | rtl/dram_trace.sv:203-244 | the packer in both modes |
| TracePipeline.Tracer.DrainStep | rtl/dram_trace.sv:302-330 | the drain's registers |
| TracePipeline.Tracer.Clock | rtl/dram_trace.sv:133-374 | one clock of the engine, banks included, is its next-state function over one queue |
| SnoopCoherence.LoadsAreLinearizable | rtl/dma_snoop_shim.sv:113-152 | each line of a load, all four of a 64-byte one, is a value the processor's view of it had at some instant between request and response, whatever refills, stores and evictions race the access |
| SnoopMeaning.LoadReturns | rtl/dma_snoop_shim.sv:68-152 | **Main.** By opcode and byte address: when a load of 16 bytes (4) or 64 (5) is answered, every byte of the 16 or 64 around its address is one the processor saw there at some instant of the run since the request |
| SnoopMeaning.StoreLeaves | rtl/dma_snoop_shim.sv:68-168 | **Main.** When a store of 16 bytes (7) or 64 (6), staging or not, is answered, every byte of it that the processor has not stored to since the request holds the store's byte where its mask is set and elsewhere one the processor saw there since, in memory and in view |
| SnoopMeaning.LinesOf | rtl/dma_snoop_shim.sv:68-80 | which lines an access has, whether it writes and whether it is staging, from opcode and address alone |
| SnoopProgress.EveryRequestAnswered | rtl/dma_snoop_shim.sv:113-168 | **Main.** From every reachable state with a request, load or store, 16 or 64 bytes, staging or not: if no acknowledgement, snoop effect, completion, line transfer or response that it waits for is withheld for b cycles, the same request is answered within b cycles for each of its at most thirty steps |
| SnoopProgress.EventStep | rtl/dma_snoop_shim.sv:113-168 | no event takes an unanswered access back, and one it waits for takes it a step on |
| SnoopProgress.AnsweredOnce | rtl/dma_snoop_shim.sv:160-168 | the answer lasts one cycle, after which the shim is idle |
| SnoopCoherence.StoresLeaveNoStaleCopy | rtl/dma_snoop_shim.sv:113-168 | **Main.** When a store outside staging memory is answered, each line the processor has not stored to since the line's first snoop took effect shows the view of that time with the masked bytes replaced, in memory and in view, and any cached copy equals memory |
| SnoopCoherence.StagingStoresLand | rtl/dma_snoop_shim.sv:113-152 | when a store to staging memory, which is not snooped, is answered, no line of it is cached and memory and view show the value at the request with the masked bytes replaced |
| SnoopCoherence.OneMemory | rtl/dma_snoop_shim.sv:57-174 | **Main.** At every instant of every run each byte, unless spoilt by a processor store inside a write's window or being replaced just then, is in view what one sequential memory holds |
| SnoopCoherence.CoherentUnderRule | rtl/dma_snoop_shim.sv:15-22 | if no processor store falls between the two snoops of a write to its line, the view of every line with no write in progress is that memory's |
| SnoopCoherence.RacingStoreWins | rtl/dma_snoop_shim.sv:18-19 | why the rule is needed: a concrete run in which a racing processor store replaces the device's data |
| SnoopCoherence.ProtocolEdge | rtl/dma_snoop_shim.sv:113-168 | which snoops and transfers have happened in each state, over a clock |
| SnoopCoherence.CleanEffect | rtl/dma_snoop_shim.sv:11-19 | clean copies agree with memory outside the bytes of a write between its transfer and its second snoop |
| SnoopCoherence.ByteEffect | rtl/dma_snoop_shim.sv:11-19 | one action of processor, cache or device keeps a byte's relation to the sequential memory |
| SnoopSystem.IndexOfLine | rtl/dma_snoop_shim.sv:71-75 | the four lines of a 64-byte access are distinct |
| SnoopShim.Shim.constructor | rtl/dma_snoop_shim.sv:85-90 | reset |
| SnoopShim.Shim.Clock | rtl/dma_snoop_shim.sv:83-174 | one clock of the seven-state machine |
| VdmaEngine.ChannelDoesWalk | rtl/dma_engine.sv:1515-1640 | **Main.** The clocked channel, translating once per page and keeping a 64-byte line, sends a prefix of the reference walk's doublewords at every instant and all of them when idle again, ending at the reference's address, for every delay of memory and receiver, with page crossings and duplicate TLB entries |
| VdmaProgress.ChannelFinishes | rtl/dma_engine.sv:1515-1640 | **Main.** With a memory and a receiver that answer within b clocks, the channel is idle after b clocks for each unit of the job's computed cost, having sent the whole walk in order |
| VdmaProgress.CostStep | rtl/dma_engine.sv:1531-1637 | a clock in which the channel does not wait brings it nearer idle; a waiting one changes nothing |
| VdmaEngine.NextRefines | rtl/dma_engine.sv:1531-1637 | each clock sends the walk's next doubleword or nothing |
| VdmaEngine.PieceByte | rtl/dma_engine.sv:480-573 | a byte gathered through the kept page, the kept line and the rotator is the byte the per-byte translation gives |
| VdmaEngine.PageTranslates | sim/vdma_test/tb_vdma.cpp:26-35 | addresses of one page translate alike |
| VdmaEngine.Channel.Go | rtl/dma_engine.sv:1534-1546 | a go latches the job and forgets page and line |
| VdmaEngine.Channel.Piece | rtl/dma_engine.sv:1626-1636 | a piece of a line |
| VdmaEngine.Channel.Clock | rtl/dma_engine.sv:1515-1640 | one clock of the channel |
| VdmaClosedForm.TransferClosed | sim/vdma_test/tb_vdma.cpp:36-67 | **Main.** The transfer is exactly its lines at their closed-form starts, and ends at memadr + lines*stride + (k > 0 ? b0 + (k-1)*width : 0) mod 2^32 |
| VdmaMeaning.TransferOfFields | sim/vdma_test/tb_vdma.cpp:36-67 | **Main.** The same told from the numbers in the register fields, the step a 16-bit two's complement, whatever is in the unused bits: how many doublewords are sent and where the address ends |
| VdmaMeaning.FieldsRead | sim/vdma_test/tb_vdma.cpp:40-44 | each register field is read back as the number put into it |
| VdmaMeaning.ByteThroughTable | sim/vdma_test/tb_vdma.cpp:26-35 | a byte through the first matching TLB entry, its table's big-endian word and the page it names |
| VdmaMeaning.ByteUnmapped | sim/vdma_test/tb_vdma.cpp:26-35 | a byte in no entry's region is at its own address |
| VdmaClosedForm.TransferCount | sim/vdma_test/tb_vdma.cpp:36-67 | the number of doublewords: p > 0 ? ceil(b0/8) + (p-1)*ceil(width/8) : 0 |
| VdmaClosedForm.LineClosed | sim/vdma_test/tb_vdma.cpp:45-64 | one line: its first copy, then whole-width copies ending at the same byte |
| VdmaReference.PerformSwapped | sim/vdma_test/tb_vdma.cpp:36-67 | the bench's nested loops terminate and emit the walk's doublewords |
| VdmaReference.PerformWords | tests/vdma/vdma_test.c:38-85 | the bare-metal test's loops, reading every byte through the test's own page table, terminate and emit, as word pairs, the walk of a machine whose TLB says the same |
| VdmaReference.ReferenceMeetsTlb | tests/vdma/vdma_test.c:38-46 | **Main.** That is the hardware's transfer for every TLB whose first entry for the region, whichever it is, leads to the test's table, if nothing else the job reads is mapped |
| VdmaReference.TestTlbServes | tests/vdma/vdma_test.c:144-149 | which the TLB the test programs, entry 1 for its region, meets for every job below 0x7f000000 |
| VdmaReference.SameTransfer | sim/vdma_test/tb_vdma.cpp:36-67 | two machines that agree on the bytes a job reads transfer the same |
| VdmaReference.PackSwapped | sim/vdma_test/tb_vdma.cpp:48-56 | packing from the top and swapping is packing by lanes |
| VdmaReference.PackWords | tests/vdma/vdma_test.c:58-74 | so is packing two words from the bottom |
| VdmaReference.WordsAreValue | tests/vdma/vdma_test.c:58-74 | both packings name the same 64 bits |
| VdmaReference.RefByteAgrees | tests/vdma/vdma_test.c:38-46 | an address's byte by the bare-metal test's own page table is the TLB's, duplicates and entry order included |
| CtraceRoundTrip.RoundTrip | sim/ctrace.hh:77-146 | **Main.** For any calls and then close, the reader's report holds every record in order with a matching trailer, and exactly the stores, and as many exceptions, as were logged up to the last chunk -- all of them if and only if a record or no store follows it |
| CtraceLog.ClosedKeeps | sim/ctrace.hh:77-146 | where the last chunk ends, told from the calls alone, and that exactly the stores and the exceptions up to there are in the file, each exception with its cause, EPC, bad address and the number of its record in the chunk |
| CtraceBytes.ChunkLayout | sim/ctrace.hh:17-24 | **Main.** A chunk byte by byte: counts, ten-byte column entries and compressed bodies at their places, little-endian; columns in order of number, each with its own vector's bytes at its element size, only empty vectors left out |
| CtraceBytes.FileLayout | sim/ctrace.hh:17-24 | a file byte by byte: R9TRACE1, the chunks end to end, and once closed the two counts and R9TRAILR |
| CtraceRoundTrip.LoneStoreLost | sim/ctrace.hh:84-102 | a store and no record: the closed file is empty |
| CtraceRoundTrip.CutInTable | sim/ctrace_dump.cc:51-73 | two records, a chunk each, cut inside the second chunk's column table: the first chunk is complete, yet there is no summary at all |
| CtraceRoundTrip.ReportIsChunks | sim/ctrace_dump.cc:82-107 | the rows of the report's columns are the chunks' records, stores and exception counts |
| CtraceRoundTrip.CutFileGivesCompleteChunks | sim/ctrace_dump.cc:51-133 | **Main.** Any beginning of the file: nothing if it is cut inside a chunk's column table, otherwise exactly the complete chunks, and no trailer |
| CtraceRoundTrip.ChunkReads | sim/ctrace_dump.cc:51-129 | a whole chunk is read back column by column |
| CtraceRoundTrip.ChunkCut | sim/ctrace_dump.cc:54-73 | a cut chunk is no chunk, a short header or a discarded one, by where the cut falls; the exception count may already include a discarded chunk's |
| CtraceRoundTrip.TrailerIsNoChunk | sim/ctrace_dump.cc:56-57 | the trailer is never taken for a chunk while there are fewer than 2^32 |
| CtraceLog.ClosedHolds | sim/ctrace.hh:84-101 | what the chunks of a closed file hold |
| CtraceRoundTrip.NoMagicNoTrace | sim/ctrace_dump.cc:40-41 | less than the magic is refused |
| CtraceWriter.Writer.Add | sim/ctrace.hh:77-82 | a record, and the chunk when it is full |
| CtraceWriter.Writer.AddStore | sim/ctrace.hh:84-87 | a store |
| CtraceWriter.Writer.AddException | sim/ctrace.hh:89-93 | an exception, with its record index |
| CtraceWriter.Writer.PutCol | sim/ctrace.hh:107-121 | one column into table and bodies |
| CtraceWriter.Writer.FlushChunk | sim/ctrace.hh:123-146 | the file grows by exactly the chunk's bytes and the columns are empty |
| CtraceWriter.Writer.Close | sim/ctrace.hh:94-102 | the last chunk and the trailer |
| CtraceReader.Reader.Rd | sim/ctrace_dump.cc:24 | a read of n bytes, or the cursor at the end |
| CtraceReader.Reader.Header | sim/ctrace_dump.cc:58-62 | the column table |
| CtraceReader.Reader.Bodies | sim/ctrace_dump.cc:64-81 | the columns, cut or bad |
| CtraceReader.Reader.Fill | sim/ctrace_dump.cc:82-92 | the switch over column numbers |
| CtraceReader.Reader.NextChunk | sim/ctrace_dump.cc:51-107 | one turn of the main loop |
| CtraceReader.Reader.Run | sim/ctrace_dump.cc:39-133 | the reader is the recursive reading of the bytes |
| Scsi.TransfersConserved | sim/henry_tb.cpp:2870-2959 | **Main.** In every session the chains of a command tile [0, pos) with pos <= total; each chain is answered PAUSE while bytes remain and the one that finishes COMPLETE, once |
| ScsiCommands.CommandRuns | sim/henry_tb.cpp:2870-2959 | **Main.** From its first doorbell to its COMPLETE every command keeps direction, first block, total and, for a read, buffer through every doorbell, whatever that one decodes to: its position is the number of bytes the awaited chains brought, its chains are answered PAUSE and last COMPLETE, a read has delivered exactly the front of its buffer and left the disk alone, a write has gathered what the chains brought and touched no block outside its range |
| ScsiCommands.BellResumes | sim/henry_tb.cpp:2870-2895 | a doorbell with bytes left, in either direction, keeps buffer, direction, block, position, total, disk, history and posts; it only awaits a chain, with a read's remaining bytes staged |
| ScsiCommands.BellBegins | sim/henry_tb.cpp:2870-2895 | any other doorbell begins its own command at 0 with its own buffer and block, or is answered at once if it moves nothing |
| Scsi.WritesReachDisk | sim/henry_tb.cpp:2908-2913 | a finished write whose chains all moved whole blocks leaves its gathered bytes on the disk from its first block |
| Scsi.ReachesDiskIff | sim/henry_tb.cpp:2908-2913 | for a write of a multiple of 512 bytes, no block of it already in place, the gathered bytes are on the disk, block by block, if and only if every chain moved whole blocks |
| Scsi.SomeBlockKept | sim/henry_tb.cpp:2908-2913 | otherwise some block of the range is as it was before the command, whatever the disk held |
| Scsi.UnalignedWriteMisplaces | sim/henry_tb.cpp:2908-2913 | a concrete write of 1024 bytes in chains of 100 and 924: answered COMPLETE with bytes 100..611 in block 0 and no block 1 |
| Scsi.Service.Bell | sim/henry_tb.cpp:2870-2895 | a doorbell: resume or new command |
| Scsi.Service.Completed | sim/henry_tb.cpp:2897-2959 | a chain's completion |
| Scsi.Service.WriteBlocks | sim/henry_tb.cpp:2910-2912 | the block loop |

## Left out

- Reset or disarm in the middle of a run: every machine starts from its reset state and stays out of reset.
- Real time, clock domains, synthesis attributes and the simulation-only counters and displays.
- AxiRefinement.LinearizableMemory: the slave is assumed to follow AXI (no spurious R or B, RLAST on the last beat); RRESP and BRESP are ignored, as in the source, and a memory error is not modelled; performance counters and the AXI-Lite registers of the same file are not modelled.
- GioEndToEnd.EndToEnd: assumes that awaited and last answered READ never differ by a non-zero multiple of 2^32 records, which every run of fewer than 2^32 records meets; `GioAliasing` shows what happens otherwise.
- GioEndToEnd.DeviceRefinement: the ARM tests `cons != prod` where the bench tests `cons < prod`, so that 32-bit wrap-around is covered; gio_service.h is not part of this model.
- The ring memory of the capture window holds records; `GioRecord` relates a record to its sixteen bytes separately.
- GioProgress.Settles: the bound assumes that VDMA has stopped (`GioTransfers.DoublewordGoes` adds a doubleword it offers) and that neither the awaited load nor a held one, under the number it will get, is a non-zero multiple of 2^32 after the last one answered; with no load awaited or held it assumes nothing.
- AxiService.RequestsAreServed: the slave's bound b is a parameter; a load or store opcode on the lane that carries it is assumed, as the requesters issue no other.
- The trace engine's `trace_stall` output and its drain-stuck counter: they only ask the core to pause.
- Changing the trace engine's mode or filters during a run: they are fixed parameters, the ASID is an input; is_load is an input because uop.vh is not part of this model.
- The physical address width of the trace engine and the shim: machine.vh is not part of this model, so the width is a parameter.
- TraceRuns.TraceDecodes: bit i of a beat is taken as bit i mod 8 of byte i / 8 of its sixteen bytes, which is how the store port and memory lay it out; after the ring wraps the stream has no start to decode from.
- The L2 itself: only the contract in the shim's header is modelled, with a cache of unlimited capacity.
- A 64-byte store through the shim: the port carries 128 bits of data, so where the other three lines come from is outside the file; each line's data and mask are parameters of the request.
- SnoopProgress.EveryRequestAnswered: the bound b on what the access waits for is a parameter.
- TraceProgress.Drains: likewise for memory's answers; that retirement stops is assumed, since `trace_stall` is left out.
- SnoopCoherence.StoresLeaveNoStaleCopy: says nothing of a line the processor stores to inside the window; `OneMemory` still covers its other bytes and lines.
- The other channels of the DMA engine and its port arbiter: they only delay the VDMA channel, which is proved for every delay; memory and TLB do not change during a transfer. `VdmaProgress.ChannelFinishes` takes the answer bound as a parameter.
- VdmaReference.PerformSwapped: memory is any function of the physical address, which includes the bench's masking to 16 MB; a PTE address outside the bench's array is undefined there.
- VdmaReference.PerformWords: the test's cached pointer to physical memory is taken as physical memory, so addresses of 512 MB and more, which that pointer does not reach, are not distinguished.
- The GIO address register of the VDMA channel: a constant copied to every record.
- CtraceRoundTrip.RoundTrip: compression is an inverse pair that never fails, and every chunk's counts and sizes fit their 32-bit fields; the raw sidecar, `--head` and `--addr` printing are not modelled.
- ScsiCommands.CommandRuns: the staging ring is what a read has staged for its chain; scsi_ring.h is not part of this model.
- Scsi.TransfersConserved: decoding of the CDB, the hash and the dump of written data are not modelled, and a chain completes only after its doorbell.
- The rest of the test bench, the other engines, the core and the scripts: I/O, diagnostics or wiring.
