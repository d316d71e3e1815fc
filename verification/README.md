# Pip-MPU: the region engine, the fault handler and the yield chain, verified

Pip-MPU is a kernel for ARMv7-M that isolates nested partitions with the hardware memory protection unit
(MPU). This project models the C code below its proved services, for the nRF52832 board `dwm1001`, and
proves what that code is for:

- **Regions.** `largest_covering_MPU_region` finds the largest region the MPU accepts around an address of a
  block; the lookup table packs it into register words, the driver loads them, the readers unpack them.
  (`Bits`, `PowerOfTwo`, `CoveringRegion`, `MpuRegisters`, `LookupTable`)
- **The memory layer.** Partition descriptors, their block lists and lookup tables, the current partition and
  the MPU move together. (`Mal`, `LayerRuns`, `RemovalRun`)
- **MemManage faults.** A block whose bounds are not those of a legal region is mapped in part only; faults
  page the rest in, through the block's own slot and two spare ones. (`MemManage`, `FaultRuns`,
  `SlotMachine`, `Instructions`, `InstructionRuns`)
- **Contexts.** Hardware entry, the code that resets, saves, and loads a context, and hardware return.
  (`Memory`, `ExceptionFrames`, `RoundTrip`, `LostRegisters`)
- **Yield, interrupts, faults.** The chain of checks that ends in saving one context and resuming another; the
  retry without saving; the climb of the partition tree; interrupt states and the interrupt mask. (`Yield`,
  `YieldProperties`, `YieldChecks`, `SwitchStates`, `Kernel`, `Faults`, `KernelRuns`, `HandlerFrames`,
  `HandlerRoundTrip`)
- **Isolation.** Which stores of the kernel its checks keep away from its own structures, and runs of all of the
  above together with the stores of the partitions. (`KernelMemory`, `StrayFrames`, `JointRuns`, `Instances`)
- **Printing.** The integer and string printing of `stdio.c`, its bounded buffers, its number parser
  and the walk over the format. (`Stdio`, `Format`, `Fields`, `Conversions`)

Where the source updates objects in place the model has classes (`MpuHardware`, `PdTable`, `MemoryLayer`,
`Handler`, `Ram`, `Core`, `Sink`); each method is proved against a function from the old state to the new one,
and the properties are lemmas about those functions and about runs of them. Words are naturals below 2^32 with
C's operators defined bit by bit, and wrap-around is explicit.

## Main results

- The jump-and-shrink loop computes the largest legal region, never wraps and always ends
  (`LargestCoveringMpuRegion`, `CoverExpMaximal`), and the regions of a block partition it
  (`CoverEqualOrDisjoint`, `CoverStable`, `AtMostTwoPerSize`).
- What was packed for a block decodes to that region and, by the architecture's table of access permissions, to those
  rights (`SlotDecodes`), and the software test of a mapping agrees with the hardware except at address 0 of a
  cleared region (`MappedIffInRegion`).
- Over every run of the layer, the six searchable slots hold legal parts of the blocks they list
  (`SlotInvariant`). The MPU holds the current table over every run that neither creates the current descriptor
  anew nor removes from it a block that one of its slots maps (`SyncInvariant`, `RemoveFromCurrentSync`). The spare
  slots stay within listed blocks, so that the partition is confined to them, exactly as long as no block is removed
  or replaced while a spare slot maps part of it and of no other listed block (`StepConfinedExact`, `RunConfined`).
- Two handled faults leave both addresses mapped (`TwoFaultProgress`); a repeated fault escalates after two
  (`RepeatedSingleEscalates`), one (`RepeatedFetch32Escalates`) or, with mixed causes, three
  (`RepeatedFaultEscalates`) attempts; no run of faults maps anything outside the listed blocks
  (`ConfinedRun`, `ConfinedAccess`).
- An instruction that is tried again after every fault, with a 16- or 32-bit fetch and data that may cross from one
  part of a block into another, completes after six faults at most, unless it needs too many parts (`TooMany`): its
  first half-word and the two ends of its data lie in three parts of one block, and slot 6 holds none of the three,
  because it already maps the second half-word, or will. The handler's tests of slots must be reliable for that:
  the MPU holds the table, and slots hold legal regions or none (`Reliable`, `InstructionCompletes`). If it needs
  too many, no slot holds something across a border of the block, and no further slot helps (`Tidy`), it faults for
  ever, and the handler returns to it every time (`InstructionExact`).
- Every state that a run of the layer or of the whole kernel reaches meets these conditions, if the run keeps spare
  slots within listed blocks and table and MPU together, and the blocks that the partition lists do not overlap
  (`RunInstruction`, `JointInstruction`). If no two blocks of the run overlap, too many parts are four parts
  (`RunFourParts`).
- A saved context, left alone, gives the thread all its registers back (`SaveRestoreRoundTrip`,
  `YieldRoundTrip`), for exactly those save addresses at which neither the copy nor the hardware frame overwrites
  a word before it is read (`RoundTripExact`). So does what a yield, an interrupt or a fault leaves in memory when it
  saves the thread it interrupted, at the first level of a climb or the second (`YieldReturns`, `InterruptReturns`,
  `FaultReturns`, `DoubleFaultReturns`).
- A yield that fails changes no partition (`YieldError`); one that succeeds saves inside one writable block of
  the caller and writes four known areas only (`YieldSaves`, `YieldWrites`).
- Which code a yield fails with, and that it switches if there is none, is a function of the state before it
  (`YieldOutcome`); what the checks ask is stated block by block (`VidtCodes`, `CalleeCodes`, `CallerCodes`,
  `CalleeCheckExact`). A context that is resumed is read inside the block that was checked, exactly when it still fits
  there by the kind it has after the save (`ContextReads`).
- A switch leaves the partition that ran in the interrupt state it was given, resumes the callee in the state that its
  context asks for, and changes no other partition: through yields (`YieldStates`), interrupts, with state 0 after
  the retry (`InterruptStates`), and faults (`FaultStates`).
- After a failure while saving, the retry without saving is total (`FallbackTotal`); after a refused VIDT of the
  caller it succeeds exactly when the callee's VIDT and context pass (`NoSaveExact`). A fault ends at the first
  ancestor that does not refuse it (`PropagationEnds`, `PropagationTarget`, `PropagationLevel`).
- The checks keep the words that a yield announces and saves away from the kernel's own structures. The two stores
  they do not cover are the frame of the resumed context and the stack pointer of the interrupted one:
  `YieldMissesExact`, by conditions on the state before the yield. Over every run in which those miss the kernel,
  no partition but root runs with interrupts masked, and the kernel's words are as they were (`MaskingInvariant`);
  from such a store on nothing is known any more (`RunExact`), and it can break the mask (`MaskBroken`). Interrupts
  and faults have the same conditions, again on the state before (`InterruptStrays`, `LevelMisses`).
- Over runs of everything together, yields, faults, mappings and the partitions' own stores, the kernel's words
  stay intact, and what the MPU lets the running partition write, read or execute lies in accessible blocks it lists
  with the right to write or execute (`Isolation`), for exactly the moves that keep the invariant (`MoveExact`). What
  a region maps of a block, the partition can read, and write or execute if the block says so (`OwnAccess`).
- Every integer field is spaces, sign, mark, zeros, digits and spaces, each of a length that is stated, where the digits
  read back as the number (`FieldLayout`): on the right, or on the left if asked for (`NumberAligned`).
- `_atoi` undoes `_ntoa_long` (`PrintParseRoundTrip`), and `snprintf_` stores a NUL-terminated prefix of the
  unbounded output, for every format without floating point (`Snprintf`), of which there is one
  for every sequence of pieces (`FormatsComplete`).

## Where the code and its documentation differ

The model follows the code.

- Removing a block from a descriptor clears neither the spare slots that map part of it nor, for the current
  descriptor, the hardware: `RemovalLeavesRegions` is a run that leaves both behind, for every block that is not a
  single region. Replacing a block leaves the spare slots as well. `StepConfinedExact` and `RemoveFromCurrentSync`
  are the exact conditions.
- A save address less than a context above that of the interrupted context, or less than a hardware frame below
  it, loses registers (`UnsafeSlotLoses`); the kernel checks that the slot is the caller's, not where it is.
- A save address may be just below the context that is resumed. The save then changes the first word of that context
  after it was checked, and an extended context is read where only a basic one was known to fit: `ContextReadBeyond`
  is such a yield, `ContextReads` the exact condition.
- The frame of a resumed context is stored where the stack pointer in that context says, which nothing checks. A
  partition that yields to itself has any value stored at any multiple of 8 (`SelfYield`, `FrameOutsideBlocks`),
  the kernel's own structures included (`SelfYieldStrays`, `MaskBroken`). `YieldConfinedExact`, `YieldMissesExact`
  and `RunExact` are the exact conditions.
- The entry code stacks the part of a context that lies below the hardware frame with the kernel's rights, wherever
  the thread's stack pointer is: in `JointRuns` the `Stack` move, whose condition is `AreaMisses`.
- An instruction that needs four parts of one block never completes, and is not propagated as a fault either:
  `NeverCompletes`, with `InstructionExact` as the exact condition and `AcrossFourParts` as an example. Three parts
  are enough if slot 6 still holds a piece of a block that was merged into a larger one: `StalePieceStops` is a run
  that ends like that, and `StaleInstance` has the addresses.
- A misaligned save address is reported with the callee's code, not with the caller's code that `yield_c.h`
  documents for it (`yield_c.c:641`). The handlers do not retry after a callee's code, so that an interrupt
  does not reach a root that is ready for it: `MisalignedSavePanics` is such a state, and
  `InterruptReachesRoot` says exactly when an interrupt does reach root. `PropagationLevel` is the same for a
  fault.
- A context whose xPSR claims an alignment step its stack pointer does not need is resumed 4 bytes off:
  `StaleAlignmentBit` is one, `LoadRestoresSp` the exact condition. Contexts stacked by the hardware never are
  (`ResetUndoesPush`, `SaveRestoreRoundTrip`).
- A zero-padded field wider than the 32-character conversion buffer comes out too narrow, a sign that does not
  fit there is lost, and the alternative form `#` drops digits that fill the width exactly: `BufferTooShort`, with
  `FieldWidth`, `SignPrinted` and `MarkKeepsDigits` as the exact conditions.
- The block search leaves out the last address of a block (`FindBelongingBlock`), although blocks include it.

## Model

| member | source | states |
|---|---|---|
| `PowerOfTwo.NextPow2` | src/arch/dwm1001/MAL/malinternal.c:210-220 | the five smearing steps give the least power of two that is at least `v`, for every `v` up to 2^31; 0 and larger values give 0 |
| `PowerOfTwo.CeilLog2Least` | src/arch/dwm1001/MAL/malinternal.c:210-220 | that power is the least: `v <= 2^k` exactly for the exponents from it on |
| `PowerOfTwo.SmearStep` | src/arch/dwm1001/MAL/malinternal.c:212-218 | one step `v \|= v >> s` doubles the run of ones below the top bit |
| `PowerOfTwo.Powlog2` | src/arch/dwm1001/MAL/malinternal.c:230-238 | the position of the highest set bit, 0 for 0, for every word |
| `PowerOfTwo.Powlog2Unique` | src/arch/dwm1001/MAL/malinternal.c:230-238 | on a power of two the answer is its exponent |
| `PowerOfTwo.MaxPowlog2Alignment` | src/arch/dwm1001/MAL/malinternal.c:245-256 | the lowest set bit from bit 5 up, 31 for 0; the search ends within the word |
| `PowerOfTwo.AlignmentSearchEnds` | src/arch/dwm1001/MAL/malinternal.c:245-256 | the loop ever finds a one if and only if the word is at least 32 |
| `PowerOfTwo.LowestBitIsAlignment` | src/arch/dwm1001/MAL/malinternal.c:245-256 | on a multiple of 32 that is the number of trailing zeros: the value is an odd multiple of that power of two |
| `PowerOfTwo.IsPowerOfTwoCorrect` | src/arch/dwm1001/MAL/malinternal.c:264-267 | accepts exactly the powers of two |
| `CoveringRegion.LargestCoveringMpuRegion` | src/arch/dwm1001/MAL/malinternal.c:414-472 | the loop returns the largest dyadic interval around the address that fits the block; every pass raises the exponent, 32 passes suffice, nothing wraps |
| `CoveringRegion.KeepTop` | src/arch/dwm1001/MAL/malinternal.c:431-448 | the first branch of the loop: either the answer, or a larger candidate that ends at the same address |
| `CoveringRegion.KeepBottom` | src/arch/dwm1001/MAL/malinternal.c:449-468 | the second branch: likewise, from the same start |
| `CoveringRegion.ShrinkBottom` | src/arch/dwm1001/MAL/malinternal.c:438-443 | the first inner do-while stops at that interval, at or above the previous exponent |
| `CoveringRegion.ShrinkTop` | src/arch/dwm1001/MAL/malinternal.c:457-462 | the second inner do-while likewise |
| `CoveringRegion.BetterEnd` | src/arch/dwm1001/MAL/malinternal.c:425-470 | the end with the better alignment is shared by all candidates up to that alignment, and is strictly better than the current size |
| `CoveringRegion.CoverExpMaximal` | src/arch/dwm1001/MAL/malinternal.c:404-414 | no aligned power-of-two interval inside the block that covers the address is larger |
| `CoveringRegion.CoverFits` | src/arch/dwm1001/MAL/malinternal.c:414-472 | the result is at least 32 bytes, aligned on its size, inside the block, around the address |
| `CoveringRegion.CoverStable` | src/arch/dwm1001/MAL/malinternal.c:414-472 | every address of a result recomputes the same result |
| `CoveringRegion.CoverEqualOrDisjoint` | src/arch/dwm1001/MAL/malinternal.c:414-472 | the results for two addresses of a block are equal or disjoint |
| `CoveringRegion.CoverByStart` | src/arch/dwm1001/MAL/malinternal.c:414-472 | so an address lies in the result for another one if and only if both results start at the same address |
| `CoveringRegion.CoverPosition` | src/arch/dwm1001/MAL/malinternal.c:414-472 | a result short of the whole block touches a boundary: enlarging it leaves the block below or above |
| `CoveringRegion.AtMostTwoPerSize` | src/arch/dwm1001/MAL/malinternal.c:414-472 | at most two distinct regions of each size occur in a block |
| `MpuRegisters.ConfigureFromLut` | src/arch/dwm1001/boot/mpu.c:178-209 | without writing RNR, slot i of a tagged table ends up in hardware region i |
| `MpuRegisters.Init` | src/arch/dwm1001/boot/mpu.c:119-137 | every region is cleared and the MPU enabled |
| `MpuRegisters.MpuHardware.WriteRbar` | src/arch/dwm1001/boot/mpu.c:186-198 | a write with VALID selects the region it names (section B3.5.8 of the Armv7-M Architecture Reference Manual); other regions keep their contents |
| `MpuRegisters.ReadSizeBits` | src/arch/dwm1001/boot/mpu.c:217-221 | the SIZE field of the region |
| `MpuRegisters.ReadSizeBytes` | src/arch/dwm1001/boot/mpu.c:229-234 | its size in bytes, 0 for a cleared region |
| `MpuRegisters.ReadStartAddr` | src/arch/dwm1001/boot/mpu.c:242-246 | its base address, the REGION bits masked off |
| `MpuRegisters.ReadEndAddr` | src/arch/dwm1001/boot/mpu.c:254-270 | its last address |
| `MpuRegisters.ReadAttributes` | src/arch/dwm1001/boot/mpu.c:278-307 | its access permissions, execute-never and enable fields |
| `MpuRegisters.MappedIffInRegion` | src/arch/dwm1001/boot/exception_handlers.c:517-526 | for legal and cleared regions the test agrees with the hardware, address 0 of a cleared region aside |
| `LookupTable.ConfigureLutEntry` | src/arch/dwm1001/MAL/malinternal.c:483-528 | the two words of the slot become those of the covering region, or of a cleared one; the rest of the table is kept |
| `LookupTable.RegionWords` | src/arch/dwm1001/MAL/malinternal.c:495-526 | the unions of shifted fields are the sums of those fields |
| `LookupTable.ClearLut` | src/arch/dwm1001/MAL/malinternal.c:536-542 | every slot is cleared and tagged |
| `LookupTable.ClearedLutIsTagged` | src/arch/dwm1001/MAL/malinternal.c:536-542 | the cleared table has VALID and the slot number in every slot, and describes no region |
| `LookupTable.SlotDecodes` | src/arch/dwm1001/MAL/malinternal.c:495-526 | encode and decode: the slot's fields give back base, size, last address and enable bit; the region maps the address and lies in the block; by the table of section B3.5.9 of the Armv7-M Architecture Reference Manual its fields let a partition read always, write if and only if the block has that right, and execute likewise |
| `LookupTable.OtherFieldsZero` | src/arch/dwm1001/MAL/malinternal.c:510-526 | all other fields of the second word are zero: no subregion is disabled, the memory is strongly ordered |
| `LookupTable.ConfigureAndReadBack` | src/arch/dwm1001/boot/mpu.c:178-307 | in code: after a slot is configured and the table loaded, the readers give back start, size, last address and enable bit, and fields that grant the rights of the block |
| `LookupTable.ClearedSlotDecodes` | src/arch/dwm1001/MAL/malinternal.c:483-494 | a slot configured for no block is a disabled region |
| `LookupTable.SetEntryFrame` | src/arch/dwm1001/MAL/malinternal.c:483-528 | configuring a slot keeps VALID and REGION of every slot and the regions of all others |
| `Mal.PdTable.constructor` | src/arch/dwm1001/MAL/mal.c:940-944 | a fresh descriptor lists nothing and has a cleared table |
| `Mal.PdTable.RemoveBlock` | src/arch/dwm1001/MAL/mal.c:979-993 | every slot that lists the block is cleared and unlisted, no other changes |
| `Mal.MemoryLayer.CreatePd` | src/arch/dwm1001/MAL/mal.c:940-944 | the descriptor at that address is replaced by a fresh one; the layer stays well formed |
| `Mal.MemoryLayer.RemoveBlock` | src/arch/dwm1001/MAL/mal.c:979-993 | only that descriptor changes; the hardware is not touched |
| `Mal.MemoryLayer.ReplaceBlock` | src/arch/dwm1001/MAL/mal.c:1023-1037 | the slot lists and maps the block, and for the current descriptor the hardware follows |
| `Mal.MemoryLayer.UpdateCurPartAndActivate` | src/arch/dwm1001/MAL/mal.c:1166-1190 | the partition becomes current and the hardware regions those of its table |
| `Mal.MemoryLayer.ConfigureCurrent` | src/arch/dwm1001/boot/exception_handlers.c:569-577 | one slot of the current table is configured and the table loaded |
| `Mal.MemoryLayer.SetIntState` | src/arch/dwm1001/boot/pip_interrupt_calls.c:66-75 | the interrupt state of the current descriptor is written, if there is one, and nothing else |
| `Mal.WithoutBlockOk` | src/arch/dwm1001/MAL/mal.c:979-993 | removal keeps the tags, clears the slots of the block and keeps the other regions |
| `Mal.WithBlockOk` | src/arch/dwm1001/MAL/mal.c:1023-1037 | replacement keeps the tags |
| `MemManage.IndexOf` | src/arch/dwm1001/boot/exception_handlers.c:539-555 | the first of the six searchable slots whose present block contains the address |
| `FaultRuns.IndexIsFirst` | src/arch/dwm1001/boot/exception_handlers.c:539-555 | the slot found is the first of the six whose block is present and contains the address, its last address included; otherwise 6 |
| `MemManage.Handler.FindMpuIndex` | src/arch/dwm1001/boot/exception_handlers.c:539-555 | the loop finds that slot |
| `MemManage.Handler.IsMappedInPhysicalMpu` | src/arch/dwm1001/boot/exception_handlers.c:517-526 | the readers' test on the hardware region |
| `MemManage.Handler.ReconfigureMpu` | src/arch/dwm1001/boot/exception_handlers.c:569-577 | the part of the block around the address is configured in the slot and loaded |
| `MemManage.Handler.HandleFetch32` | src/arch/dwm1001/boot/exception_handlers.c:669-729 | both half-words are looked up in the same block; those not mapped are paged in, into the own slot and slot 6 |
| `MemManage.Handler.HandleSingle` | src/arch/dwm1001/boot/exception_handlers.c:607-668 | the address is paged into the own slot or a spare one, as the flag says, and the flag toggles |
| `MemManage.Handler.HandleFault` | src/arch/dwm1001/boot/exception_handlers.c:591-743 | the whole handler, escalation included |
| `FaultRuns.PageInEffect` | src/arch/dwm1001/boot/exception_handlers.c:569-577 | the address lies in an enabled legal region inside the block with the block's rights; other regions are kept |
| `FaultRuns.SingleFault` | src/arch/dwm1001/boot/exception_handlers.c:607-668 | handled if and only if a listed present block contains the address and its own slot does not map it; then it is mapped there or, at every other fault, in slot 7 for data and 6 for a fetch; otherwise nothing changes (for slots whose software test can be trusted, see `SlotsTrusted`) |
| `FaultRuns.SlotsTrusted` | src/arch/dwm1001/boot/exception_handlers.c:517-526 | the slot invariant makes the software test of a mapping reliable where the handler uses it |
| `FaultRuns.Fetch32Fault` | src/arch/dwm1001/boot/exception_handlers.c:669-729 | handled if and only if one listed present block contains both half-words and they are not both mapped yet; then the first is mapped by the block's slot and the second by slot 6, and what mapped one before stays as it was |
| `FaultRuns.HandleKeepsSlots` | src/arch/dwm1001/boot/exception_handlers.c:591-743 | a fault keeps the slot invariant, the block list and the agreement of table and hardware |
| `FaultRuns.TwoFaultProgress` | src/arch/dwm1001/boot/exception_handlers.c:607-668 | after two handled faults both addresses are mapped, in different slots, whatever flag, table and hardware held before |
| `FaultRuns.BudgetStep` | src/arch/dwm1001/boot/exception_handlers.c:591-743 | a handled fault uses up the attempts left for its address |
| `FaultRuns.RepeatedFaultEscalates` | src/arch/dwm1001/boot/exception_handlers.c:591-743 | of any run of faults at one address, of any causes, at most three are handled |
| `FaultRuns.RepeatedSingleEscalates` | src/arch/dwm1001/boot/exception_handlers.c:607-668 | of data and 16-bit fetch faults at most two, and one if the flag is clear |
| `FaultRuns.RepeatedFetch32Escalates` | src/arch/dwm1001/boot/exception_handlers.c:669-729 | of 32-bit fetch faults at most one |
| `FaultRuns.ConfinedRun` | src/arch/dwm1001/boot/exception_handlers.c:539-743 | after any run of faults every enabled region lies in a listed block with its rights |
| `FaultRuns.HandleConfined` | src/arch/dwm1001/boot/exception_handlers.c:539-743 | a fault keeps the table confined to listed blocks, whatever the hardware holds |
| `FaultRuns.ConfinedAccess` | src/arch/dwm1001/boot/exception_handlers.c:539-743 | so an address reachable through an enabled region belongs to a listed block |
| `Instructions.FaultRefines` | src/arch/dwm1001/boot/exception_handlers.c:591-743 | where the handler's tests are reliable, a fault of an instruction that touches listed blocks is handled, and fills the slots by the rules of `SlotMachine` |
| `SlotMachine.StopsUnlessCrowded` | src/arch/dwm1001/boot/exception_handlers.c:607-729 | by those rules all that is needed is mapped after six faults, whatever the slots held, unless three parts compete for two slots |
| `SlotMachine.CrowdedNeverStops` | src/arch/dwm1001/boot/exception_handlers.c:607-729 | if they do, and each slot held pieces of one part only, it never is |
| `Instructions.InstructionCompletes` | src/arch/dwm1001/boot/exception_handlers.c:591-743 | unless it needs too many parts (`TooMany`), an instruction completes after at most six faults, whatever the flag and the slots held before, where the handler's tests are reliable (`Reliable`) |
| `Instructions.InsideOnePart` | src/arch/dwm1001/MAL/malinternal.c:414-472 | a legal region inside a block lies inside one of its parts |
| `Instructions.InstructionExact` | src/arch/dwm1001/boot/exception_handlers.c:591-743 | where slots are also tidy (`Tidy`), it completes if and only if it does not need too many parts; every fault on the way is handled |
| `Instructions.TooManyIsFour` | src/arch/dwm1001/boot/exception_handlers.c:591-743 | too many parts are four parts of one block, if slot 6 maps the second half-word by its whole part or not at all |
| `Instructions.NeverCompletes` | src/arch/dwm1001/boot/exception_handlers.c:591-743 | when a block was just mapped, an instruction across four parts of it faults for ever |
| `Instructions.AcrossFourParts` | src/arch/dwm1001/boot/exception_handlers.c:591-743 | a block of 192 bytes and an instruction across four parts of it |
| `InstructionRuns.RunInstruction` | src/arch/dwm1001/MAL/mal.c:940-1037 | in every state that a run reaches which keeps spare slots within listed blocks and the current table loaded, the listed blocks not overlapping, an instruction completes after six faults or faults for ever, as `TooMany` says |
| `InstructionRuns.JointInstruction` | src/arch/dwm1001/boot/exception_handlers.c:591-743 | the same in every state of a joint run |
| `InstructionRuns.RunWhole` | src/arch/dwm1001/MAL/mal.c:940-1037 | over every run each slot of each descriptor holds a whole part of some block, or nothing |
| `InstructionRuns.RunFourParts` | src/arch/dwm1001/MAL/mal.c:940-1037 | so after a run over blocks that do not overlap, `TooMany` is four parts of one block |
| `InstructionRuns.StalePieceStops` | src/core/Services.v:300-317 | a run from reset (create, replace, switch, a 32-bit fetch fault, replace by a larger block, as in a merge) after which an instruction of three parts faults for ever, because slot 6 keeps a piece of the smaller block |
| `InstructionRuns.StaleInstance` | src/core/Services.v:300-317 | blocks of 64 and 160 bytes and an instruction for it, which does not touch four parts |
| `LayerRuns.StepKeepsSlots` | src/arch/dwm1001/MAL/mal.c:940-1037 | creating, replacing, removing, switching and faults keep the slot invariant in every descriptor |
| `LayerRuns.SlotInvariant` | src/arch/dwm1001/MAL/mal.c:940-1037 | over every run each of the six searchable slots is disabled exactly when it lists no block and otherwise maps a legal part of its block with its rights; the spare slots are disabled or legal |
| `LayerRuns.StepKeepsSync` | src/arch/dwm1001/MAL/mal.c:1023-1037 | replacing, switching and faults keep hardware and current table equal, and so does anything done to another descriptor |
| `LayerRuns.SyncInvariant` | src/arch/dwm1001/boot/mpu.c:178-209 | over every run of such steps |
| `LayerRuns.RemoveFromCurrentSync` | src/arch/dwm1001/MAL/mal.c:979-993 | removing a block from the current descriptor keeps them equal if and only if no slot that lists it is configured |
| `LayerRuns.StepConfinedExact` | src/arch/dwm1001/MAL/mal.c:940-1037 | creating, switching and faults keep every enabled slot, spare ones included, within listed blocks; replacing and removing do if and only if the spare slots they leave alone still belong to a listed block |
| `LayerRuns.ConfinementInvariant` | src/arch/dwm1001/MAL/mal.c:940-1037 | so it holds over every run of such steps |
| `LayerRuns.RunConfined` | src/arch/dwm1001/boot/mpu.c:178-209 | and then an address reachable through the hardware belongs to a listed block of the running partition |
| `RemovalRun.RemovalLeavesRegions` | src/arch/dwm1001/MAL/mal.c:979-993 | for every block that is not one region, a run (create, replace, switch, two faults, remove) after which the partition lists nothing, a spare slot maps the block, and the hardware is not that of the table |
| `RemovalRun.Instance` | src/arch/dwm1001/MAL/mal.c:979-993 | a block of 96 bytes is such a block |
| `LayerRuns.InitiallyOk` | src/arch/dwm1001/boot/main.c:54-127 | the state after the MPU is reset satisfies both invariants |
| `ExceptionFrames.ResetUndoesPush` | src/arch/dwm1001/boot/include/stack.h:56-75 | the reset gives back the stack pointer from before the exception, for every word-aligned one, both frame kinds and both STKALIGN values, wrap-around included |
| `ExceptionFrames.PushPop` | src/arch/dwm1001/boot/include/stack.h:56-75 | hardware entry and return agree on the stack pointer (sections B1.5.6 to B1.5.8 of the Armv7-M Architecture Reference Manual) |
| `ExceptionFrames.TransferExact` | src/arch/dwm1001/boot/yield_c.c:694-723 | a word-by-word copy is exact if no word of it is overwritten before it is read |
| `ExceptionFrames.SaveFrame` | src/arch/dwm1001/boot/yield_c.c:694-750 | a save changes the words of its slot only, wherever that is |
| `RoundTrip.SaveCopies` | src/arch/dwm1001/boot/yield_c.c:694-750 | the slot then holds the kind, the flags and the same registers, for every slot the copy does not run into |
| `ExceptionFrames.LoadFrame` | src/arch/dwm1001/boot/yield_c.c:784-830 | the frame pointer computed for a load is the one the hardware would push |
| `ExceptionFrames.LoadWrites` | src/arch/dwm1001/boot/yield_c.c:784-970 | a load writes the words of the hardware frame only, wherever that is |
| `RoundTrip.LoadResumes` | src/arch/dwm1001/boot/yield_c.c:784-970 | loading a context and returning gives its registers, the xPSR with alignment and Thumb bits added, the stack pointer by the pop rule, if the frame overwrites no register that is still to be read |
| `LostRegisters.LoadExact` | src/arch/dwm1001/boot/yield_c.c:784-970 | and only if |
| `RoundTrip.LoadRestoresSp` | src/arch/dwm1001/boot/yield_c.c:784-970 | the stack pointer comes back if and only if the xPSR does not claim an alignment step it does not need |
| `RoundTrip.StaleAlignmentBit` | src/arch/dwm1001/boot/yield_c.c:784-970 | a context for which it does not |
| `RoundTrip.SaveRestoreRoundTrip` | src/arch/dwm1001/boot/yield_c.c:694-970 | entry, reset, save, load and return give back all 17 or 50 registers, the xPSR up to bits 9 and 24, and the flags, for every word-aligned stack pointer and every safe save address |
| `LostRegisters.RoundTripExact` | src/arch/dwm1001/boot/yield_c.c:694-970 | a word-aligned save address is safe if and only if every thread with that stack pointer gets its registers back |
| `LostRegisters.UnsafeSlotLoses` | src/arch/dwm1001/boot/yield_c.c:694-970 | for every other one, a thread that does not |
| `ExceptionFrames.Ram.ResetInitialSp` | src/arch/dwm1001/boot/include/stack.h:56-75 | the `sp` field of the context is rewritten, nothing else |
| `ExceptionFrames.Ram.WriteContext` | src/arch/dwm1001/boot/yield_c.c:694-750 | the copy loops and header stores are the specified save, overlap included |
| `ExceptionFrames.Ram.LoadContext` | src/arch/dwm1001/boot/yield_c.c:784-970 | the stores into the frame and the registers read are the specified load, overlap included |
| `Yield.FindBelongingBlock` | src/core/Internal.v:300-310 | the first present block among the 64 entries the search visits whose range, last address excluded, contains the address; none only if there is none |
| `YieldProperties.SwitchSound` | src/arch/dwm1001/boot/yield_c.c:752-782 | the callee is current, its table loaded, its interrupt state the saved one, BASEPRI to match; descriptors keep everything but interrupt states |
| `SwitchStates.SwitchStores` | src/arch/dwm1001/boot/yield_c.c:752-782 | the partition that ran is left with `flagsOnYield`, the callee has the second word of its context for interrupt state, and every other descriptor is as it was |
| `SwitchStates.YieldStates` | src/arch/dwm1001/boot/yield_c.c:163-782 | the same of a whole yield, the callee's word read from the memory as announced and saved to |
| `SwitchStates.SetStates` | src/arch/dwm1001/boot/pip_interrupt_calls.c:66-103 | setting the interrupt state changes that of the running partition only, and the mask for root only |
| `YieldProperties.SaveSourceSound` | src/arch/dwm1001/boot/yield_c.c:591-692 | an error changes nothing and has a caller's code, or the callee's misalignment code |
| `YieldProperties.TargetVidtSound` | src/arch/dwm1001/boot/yield_c.c:394-692 | an error changes no partition; at most the callee's validated current-interrupt word and the floating-point flag |
| `YieldProperties.SourceVidtSound` | src/arch/dwm1001/boot/yield_c.c:329-392 | the same from the caller's VIDT on |
| `YieldProperties.YieldError` | src/arch/dwm1001/boot/yield_c.c:163-692 | a failed yield changes the interrupted context's sp word and at most those two |
| `YieldProperties.YieldSwitch` | src/arch/dwm1001/boot/yield_c.c:163-782 | a yield that switches goes to the callee it addressed |
| `YieldProperties.CallerCheckExact` | src/arch/dwm1001/boot/yield_c.c:591-679 | the checks pass if and only if the whole context fits an accessible, writable, present block at an aligned address and is of a known kind |
| `YieldChecks.FindIsFirst` | src/core/Internal.v:300-310 | the block found is that of the first entry, among 64, that is present and around the address, its last address excepted |
| `YieldChecks.VidtCodes` | src/arch/dwm1001/boot/yield_c.c:329-458 | the code for each fault of a VIDT's block, the size of 228 bytes included |
| `YieldChecks.CalleeCodes` | src/arch/dwm1001/boot/yield_c.c:460-589 | the code for each fault of the context to resume, in order: no block, not accessible, not readable, misaligned, too long for the block or of unknown kind |
| `YieldChecks.CallerCodes` | src/arch/dwm1001/boot/yield_c.c:591-679 | the same of the place to save to, which must be writable, for the kind of the interrupted context |
| `YieldChecks.CalleeCheckExact` | src/arch/dwm1001/boot/yield_c.c:460-589 | the checks pass if and only if the first present block around the context is accessible and readable, the address aligned, the kind known and the whole context inside |
| `YieldChecks.YieldOutcome` | src/arch/dwm1001/boot/yield_c.c:163-692 | what a whole yield comes to, in the order of its checks: the indices 0 to 55, the partition addressed, caller's VIDT, callee's VIDT, callee's context, save address, or a switch |
| `YieldChecks.AnnounceWrites` | src/arch/dwm1001/boot/yield_c.c:446-447 | the interrupt number goes into the first word of the callee's VIDT, and nothing else changes |
| `YieldChecks.NumberStays` | src/arch/dwm1001/boot/yield_c.c:446-447 | and is there after the yield, unless slot or frame are stored over it |
| `YieldChecks.ContextReads` | src/arch/dwm1001/boot/yield_c.c:784-970 | the context resumed was checked to fit a present, accessible, readable block of the callee; all its words are read there if and only if it fits by the kind it has after the save, the checked one unless the slot is over its first word |
| `YieldChecks.ContextReadBeyond` | src/arch/dwm1001/boot/yield_c.c:460-589 | a yield that saves over the first word of the context it resumes, and reads it beyond the block |
| `YieldProperties.YieldSaves` | src/arch/dwm1001/boot/yield_c.c:591-692 | a successful yield saves inside one present, accessible, writable block of the caller, resumes the context in the callee's VIDT, and wipes the floating-point registers if and only if a basic context follows an extended one |
| `YieldProperties.YieldWrites` | src/arch/dwm1001/boot/yield_c.c:163-970 | a successful yield changes no word but the interrupted context's sp, the callee's current-interrupt word, the slot and the resumed frame |
| `YieldProperties.YieldFrame` | src/arch/dwm1001/boot/yield_c.c:784-830 | the frame is where the stack pointer in the callee's context puts it, in the memory as announced and saved to: known before the call |
| `YieldProperties.YieldConfinedExact` | src/arch/dwm1001/boot/yield_c.c:163-970 | it writes only inside blocks of caller and callee if and only if the interrupted context's sp word and that frame lie there |
| `YieldProperties.YieldRoundTrip` | src/arch/dwm1001/boot/yield_c.c:163-970 | a thread that yields to a safe save address and is resumed from its untouched slot has all its registers, with the interrupt flags it asked for |
| `HandlerRoundTrip.YieldReturns` | src/arch/dwm1001/boot/yield_c.c:163-970 | the same from the memory that the yield ends with, whatever became of the rest of it, if the resumed frame misses the slot |
| `YieldProperties.AttemptCases` | src/arch/dwm1001/boot/yield_c.c:329-692 | which side an attempt fails on, by conditions on the state before it |
| `YieldProperties.NoSaveExact` | src/arch/dwm1001/boot/exception_handlers.c:106-137 | without a save address the callee is resumed if and only if its VIDT and context pass |
| `YieldProperties.RetryClearsFpu` | src/arch/dwm1001/boot/yield_c.c:564-570 | in the retry the wiping is right if and only if an extended context is resumed or the value read through the null context is 0 just for an extended one |
| `YieldProperties.FallbackTotal` | src/arch/dwm1001/boot/exception_handlers.c:193-225 | after a failure while saving, the retry without saving always switches, whatever the null context yields |
| `YieldProperties.AnnounceTwice` | src/arch/dwm1001/boot/yield_c.c:440-457 | writing the interrupt number again changes neither memory nor checks |
| `Kernel.SwitchPartition` | src/arch/dwm1001/boot/yield_c.c:752-782 | on the descriptor objects and the MPU: both interrupt states are written, and the callee's table is in the hardware |
| `Kernel.Core.SwitchContextCont` | src/arch/dwm1001/boot/yield_c.c:752-782 | takes the specified step |
| `Kernel.Core.LoadContext` | src/arch/dwm1001/boot/yield_c.c:906-995 | BASEPRI and the registers |
| `Kernel.Core.SaveSourcePartCtxCont` | src/arch/dwm1001/boot/yield_c.c:591-692 | takes the specified step, misalignment code included |
| `Kernel.Core.GetTargetPartCtxCont` | src/arch/dwm1001/boot/yield_c.c:460-589 | takes the specified step |
| `Kernel.Core.GetTargetPartVidtCont` | src/arch/dwm1001/boot/yield_c.c:394-458 | takes the specified step |
| `Kernel.Core.GetSourcePartVidtCont` | src/arch/dwm1001/boot/yield_c.c:329-392 | takes the specified step |
| `Kernel.Core.GetParentPartDescCont` | src/arch/dwm1001/boot/yield_c.c:299-327 | takes the specified step |
| `Kernel.Core.YieldGlue` | src/arch/dwm1001/boot/yield_c.c:163-297 | the whole yield |
| `Faults.SetInterruptState` | src/arch/dwm1001/boot/pip_interrupt_calls.c:77-103 | the current partition's interrupt state, and BASEPRI for root only |
| `Faults.InterruptHandler` | src/arch/dwm1001/boot/exception_handlers.c:69-147 | the first attempt, the retry after a caller's code, the panic |
| `Faults.PropagateFault` | src/arch/dwm1001/boot/exception_handlers.c:169-263 | the recursion, with the depth of the partition as measure |
| `Faults.FaultHandler` | src/arch/dwm1001/boot/exception_handlers.c:279-305 | the climb starts at the current partition |
| `Faults.InterruptEnds` | src/arch/dwm1001/boot/exception_handlers.c:69-147 | root runs with its table and the right mask, or the kernel panics and no partition has changed; a failure while saving never panics |
| `Faults.InterruptReachesRoot` | src/arch/dwm1001/boot/exception_handlers.c:69-147 | root runs if and only if its VIDT and context pass and the interrupted partition's save address is not misaligned |
| `SwitchStates.InterruptStates` | src/arch/dwm1001/boot/exception_handlers.c:69-147 | the interrupted partition keeps its interrupt state, or gets 0 where its context could not be saved; root gets that of its context; the save index is 8 or 9 |
| `HandlerRoundTrip.InterruptReturns` | src/arch/dwm1001/boot/exception_handlers.c:69-147 | an interrupted thread that is saved, by entry 8 or 9 of its VIDT as its interrupt state is 0 or not, gets all its registers and that state back from the slot |
| `Faults.MisalignedSavePanics` | src/arch/dwm1001/boot/yield_c.c:638-642 | a state in which root is ready for interrupt 16 and the kernel panics |
| `Faults.LastLevelHolds` | src/arch/dwm1001/boot/exception_handlers.c:169-263 | how the last level of a climb ends |
| `Faults.PropagationEnds` | src/arch/dwm1001/boot/exception_handlers.c:169-263 | the climb ends after at most as many levels as the partition is deep, at the first that is not refused on the callee's side |
| `Faults.PropagationTarget` | src/arch/dwm1001/boot/exception_handlers.c:169-263 | one level above the refused ones the partition runs, with its table and the right mask, or the kernel panics and no partition has changed |
| `Faults.PropagationLevel` | src/arch/dwm1001/boot/exception_handlers.c:169-263 | one level, by conditions on the state before it: parent runs, panic, or climb |
| `SwitchStates.LevelStates` | src/arch/dwm1001/boot/exception_handlers.c:169-263 | at the level that takes a fault, the faulting partition keeps its interrupt state and the parent gets that of its context |
| `SwitchStates.PropagateStates` | src/arch/dwm1001/boot/exception_handlers.c:169-263 | the same of a whole climb, wherever it ends |
| `SwitchStates.FaultStates` | src/arch/dwm1001/boot/exception_handlers.c:279-306 | the same of a fault |
| `HandlerRoundTrip.LevelReturns` | src/arch/dwm1001/boot/exception_handlers.c:169-263 | a thread that is saved at some level of a climb gets all its registers and interrupt state back from that slot |
| `HandlerRoundTrip.FaultReturns` | src/arch/dwm1001/boot/exception_handlers.c:279-306 | the same of a fault that the parent takes: the stack pointer was reset, the slot is entry 8 or 9 of the faulting partition's VIDT |
| `HandlerRoundTrip.SecondLevel` | src/arch/dwm1001/boot/exception_handlers.c:242-258 | where the parent is not resumed the climb goes on from it with entry 10 of its VIDT, in a state that is stated |
| `HandlerRoundTrip.DoubleFaultReturns` | src/arch/dwm1001/boot/exception_handlers.c:169-306 | a thread saved at the second level, in the parent's slot, gets everything back from there |
| `KernelMemory.YieldSpares` | src/arch/dwm1001/boot/yield_c.c:163-970 | whatever a yield comes to, the kernel's words keep their values if the interrupted context's sp word and the resumed frame miss them |
| `KernelMemory.YieldMissesExact` | src/arch/dwm1001/boot/yield_c.c:163-970 | given that accessible blocks hold no byte of the kernel, no store of a yield meets one if and only if those two do not, a condition on the state before it |
| `KernelMemory.InterruptSpares` | src/arch/dwm1001/boot/exception_handlers.c:69-147 | the same of an interrupt, its retry and its panic |
| `KernelMemory.PropagateSpares` | src/arch/dwm1001/boot/exception_handlers.c:169-263 | the same of a climb, which announces the fault at every level it tries |
| `StrayFrames.SelfYield` | src/arch/dwm1001/boot/yield_c.c:240-297 | a non-root partition that yields to itself has any value stored at any multiple of 8 below 2^32 - 32 |
| `StrayFrames.FrameOutsideBlocks` | src/arch/dwm1001/boot/yield_c.c:784-830 | so the frame goes outside all blocks of caller and callee |
| `StrayFrames.SelfYieldStrays` | src/arch/dwm1001/boot/yield_c.c:784-830 | and over bytes of the kernel, if they are there; any state may follow |
| `StrayFrames.MaskBroken` | src/arch/dwm1001/MAL/mal.c:48 | if `current_partition` is there, root seems to run after it, with interrupts enabled although its interrupt state is 0 |
| `KernelRuns.YieldStrays` | src/arch/dwm1001/boot/yield_c.c:163-970 | whether a yield stores over the kernel's structures, by the state before it |
| `KernelRuns.StepSpares` | src/arch/dwm1001/boot/yield_c.c:163-970 | a step that does not stray leaves the kernel's words as they were |
| `KernelRuns.StepKeeps` | src/arch/dwm1001/boot/yield_c.c:752-782 | interrupt-state calls, yields, interrupts, faults and steps of the partitions keep the invariant |
| `KernelRuns.RunKeeps` | src/arch/dwm1001/boot/yield_c.c:752-782 | so does every run in which no step strays, and the kernel's words are as they were; once one has strayed, any state may follow |
| `KernelRuns.RunExact` | src/arch/dwm1001/boot/yield_c.c:752-970 | nothing is known of what follows a stray store, and so the invariant holds in every state that a run may reach if and only if no step of it strays |
| `HandlerFrames.InterruptStrays` | src/arch/dwm1001/boot/exception_handlers.c:69-147 | whether an interrupt stores over the kernel's structures, by the state before it |
| `HandlerFrames.LevelFrame` | src/arch/dwm1001/boot/exception_handlers.c:169-263 | where a level of a climb that ends there stores its frame, by the state before that level |
| `HandlerFrames.LevelMisses` | src/arch/dwm1001/boot/exception_handlers.c:169-263 | so whether it stores over the kernel's structures; levels at which the climb goes on, or panics, store no frame |
| `KernelRuns.BootEstablishes` | src/arch/dwm1001/boot/main.c:54-127 | starting root establishes it |
| `Instances.BootInstance` | src/arch/dwm1001/boot/main.c:54-127 | a kernel with a root and a child, and a run in which root unmasks interrupts, to which `KernelRuns.MaskingInvariant` applies |
| `Instances.YieldInstance` | src/arch/dwm1001/boot/yield_c.c:163-782 | a yield of that child to root to which `YieldProperties.YieldRoundTrip` applies |
| `KernelRuns.MaskingInvariant` | src/arch/dwm1001/boot/pip_interrupt_calls.c:77-103 | after boot and any run in which no step strays, interrupts are masked if and only if root runs with interrupt state 0, the MPU holds the running partition's table, and the kernel's words are as they were |
| `JointRuns.MoveExact` | src/arch/dwm1001/boot/exception_handlers.c:591-743 | a call, exception, MemManage fault, mapping, unmapping, creation or store keeps the joint invariant, whatever follows it, if and only if it does not stray, keeps the spare slots within listed blocks and clears no configured slot of the running partition |
| `JointRuns.WritableInBlock` | src/arch/dwm1001/boot/mpu.c:178-209 | what the MPU lets the running partition write lies in an accessible writable block that it lists, and misses the kernel |
| `JointRuns.ReadableInBlock` | src/arch/dwm1001/boot/mpu.c:178-209 | what it lets it read lies in an accessible block that it lists, and what it lets it execute in one with that right |
| `JointRuns.OwnAccess` | src/arch/dwm1001/boot/mpu.c:178-209 | an address that a slot maps of an accessible block can be read, and written or executed if the block has that right |
| `JointRuns.JointInvariant` | src/arch/dwm1001/boot/exception_handlers.c:591-743 | over every run of good moves the kernel is well formed, masked as it should be, its tables in order, confined, and in the MPU |
| `JointRuns.Isolation` | src/arch/dwm1001/boot/exception_handlers.c:591-743 | after such a run the kernel's words are as they were, and the running partition can write, read and execute only in accessible blocks that it lists, with the right to write or execute |
| `JointRuns.BootJoint` | src/arch/dwm1001/boot/main.c:54-127 | starting root establishes the joint invariant, if the descriptors' tables are in order |
| `Instances.JointInstance` | src/arch/dwm1001/boot/main.c:54-127 | a boot, a mapping and a store to which `JointRuns.Isolation` applies |
| `Stdio.Sink.Out` | src/arch/dwm1001/boot/stdio.c:213-218 | the buffer holds the prefix that fits of everything sent |
| `Stdio.OutRev` | src/arch/dwm1001/boot/stdio.c:294-318 | the buffer backwards, padded on the left or the right |
| `Stdio.NtoaFormat` | src/arch/dwm1001/boot/stdio.c:322-372 | padding zeros, the mark of the alternative form and the sign, as far as the conversion buffer goes |
| `Stdio.NtoaLong` | src/arch/dwm1001/boot/stdio.c:376-424 | the field of the number in its base, for both widths |
| `Stdio.ConvertDigits` | src/arch/dwm1001/boot/stdio.c:387-393 | the digit loop gives the last 32 digits of the number, reversed |
| `Stdio.WideDigits` | src/arch/dwm1001/boot/stdio.c:402-424 | the buffer holds a 64-bit number in octal, decimal and hexadecimal, and in binary if and only if it is below 2^32 |
| `Stdio.AddMark` | src/arch/dwm1001/boot/stdio.c:339-357 | the mark replaces what fills a width or precision exactly, and is pushed as far as there is room |
| `Stdio.Atoi` | src/arch/dwm1001/boot/stdio.c:283-290 | the value of the leading digits modulo 2^32, and where they end |
| `Stdio.PrintParseRoundTrip` | src/arch/dwm1001/boot/stdio.c:283-396 | every 32-bit value printed plainly and followed by a non-digit is parsed back |
| `Stdio.FieldWidth` | src/arch/dwm1001/boot/stdio.c:322-372 | a field is as wide as asked for if and only if it is not zero-padded beyond the buffer |
| `Stdio.SignPrinted` | src/arch/dwm1001/boot/stdio.c:322-372 | a negative number has its sign if and only if the padded and marked digits leave room |
| `Stdio.MarkKeepsDigits` | src/arch/dwm1001/boot/stdio.c:339-357 | the alternative form keeps the digits if and only if what it drops is padding |
| `Stdio.BufferTooShort` | src/arch/dwm1001/boot/stdio.c:322-372 | inputs for which width, sign and digits are lost |
| `Fields.TextIsNumeral` | src/arch/dwm1001/boot/stdio.c:387-391 | the digits are a numeral of the base, in the case asked for and without leading zeros, that reads as the number |
| `Fields.FieldLayout` | src/arch/dwm1001/boot/stdio.c:294-424 | every integer field is spaces, sign, mark, zeros, digits and spaces, with the lengths and what the conversion buffer loses stated; the spaces are in front, or behind if left-justified |
| `Fields.NumberAligned` | src/arch/dwm1001/boot/stdio.c:294-424 | with room for everything: a field that is not left-justified ends with all the digits and begins with spaces only, one that is starts with its sign and ends in spaces only |
| `Fields.Fives` | src/arch/dwm1001/boot/stdio.c:294-372 | a 5 in fields of width 3 |
| `Fields.FortyTwo` | src/arch/dwm1001/boot/stdio.c:339-357 | a 42 with its mark in a field of width 6 |
| `Format.ReadFlags` | src/arch/dwm1001/boot/stdio.c:694-706 | the flag loop reads the flags at the front of the format and stops behind them |
| `Format.PrintConversion` | src/arch/dwm1001/boot/stdio.c:692-948 | one conversion: flags, width, precision, size and specifier are read, arguments taken, the piece printed |
| `Format.PrintString` | src/arch/dwm1001/boot/stdio.c:891-915 | the string, cut by the precision and padded to the width |
| `Format.PrintCharacter` | src/arch/dwm1001/boot/stdio.c:871-889 | the character, padded to the width |
| `Fields.StringLayout` | src/arch/dwm1001/boot/stdio.c:891-915 | as much of the string as the precision allows, spaces in front, or behind if left-justified |
| `Fields.CharacterLayout` | src/arch/dwm1001/boot/stdio.c:871-889 | the same of a character |
| `Format.Walk` | src/arch/dwm1001/boot/stdio.c:681-948 | everything sent to the output is the pieces the format and its arguments stand for, in order |
| `Format.Snprintf` | src/arch/dwm1001/boot/stdio.c:978-985 | the full length is returned; the buffer gets the first count - 1 characters at most, then NUL, and is untouched behind it; with count 0 nothing is written |
| `Format.ConversionRead` | src/arch/dwm1001/boot/stdio.c:692-790 | flags, width and precision written in decimal are read back |
| `Format.FormatsComplete` | src/arch/dwm1001/boot/stdio.c:681-948 | every sequence of integer, character and string pieces made of C characters has a format, itself a C string, and arguments that stand for exactly it |
| `Fields.TextInOrder` | src/arch/dwm1001/boot/stdio.c:681-948 | the text is what is printed of each piece, in order |
| `Fields.IntegerInText` | src/arch/dwm1001/boot/stdio.c:681-985 | so the text of a format has the field of each integer, with its layout, at its place |
| `Conversions.SizeIsRead` | src/arch/dwm1001/boot/stdio.c:741-775 | `hh`, `h`, `l`, `t`, `z`, `ll` and `j` ask for 8, 16, 32 and 64 bits |
| `Conversions.SignedPrints` | src/arch/dwm1001/boot/stdio.c:818-834 | `d` and `i` print the number that these low bits are in two's complement (8 bits are unsigned), without zeros if there is a precision and without mark |
| `Conversions.UnsignedPrints` | src/arch/dwm1001/boot/stdio.c:835-855 | `u`, `x`, `X`, `o` and `b` print it unsigned in base 10, 16, 8 or 2, without plus and space |
| `Conversions.StarWidth` | src/arch/dwm1001/boot/stdio.c:709-724 | `*` takes the width from the arguments as if it were spelled; a negative one asks for left justification |
| `Conversions.StarPrecision` | src/arch/dwm1001/boot/stdio.c:726-739 | the same of a precision; a negative one is 0 |
| `Conversions.PointerPrints` | src/arch/dwm1001/boot/stdio.c:917-933 | `p` prints eight digits of base 16 in upper case |

## Left out

- The services proved in Coq and their helpers: `checkChildOfCurrPart` is a given map from partition and local
  identifier to child; `findBelongingBlock` is modelled from `src/core/Internal.v`, with a partition's kernel
  structures as one list of entries. Block entries do not change during a run.
- Assembly, barriers, the fault status registers and `getFaultedAddress`: cause and address of a fault are
  inputs; hardware entry and return are functions; lazy floating-point stacking is not modelled.
- Blocks in the upper half of the address space, where the top of a region can wrap to 0; this chip has no
  memory there.
- ARMv8-M, and the priority of overlapping regions.
- The number of MPU regions is 8, the architecture's choice on this chip; the TEX, S, C and B fields, always
  zero, do not appear in the words' unions.
- The memory (`mem`) and the memory layer (`mal`) are separate parts of the state: the kernel's own writes to its
  descriptors and globals change the layer, and what is stored over the bytes that hold them, the set `kernel`,
  shows in the memory only. Runs account for it: from such a store on, any state may follow
  (`KernelRuns.Reaches`, `JointRuns.Follows`).
- YieldProperties.SwitchSound: says what the switch does to the layer; that the frame it stores is not stored over
  the layer is the condition `KernelRuns.Strays`.
- KernelRuns.StepKeeps: the same of every event; `KernelRuns.RunExact` has the condition.
- What the runs assume of partitions: no accessible block holds bytes of the kernel, and a VIDT is word-aligned or
  lies whole inside its block (`KernelApart`). setVIDT checks the latter when the VIDT is set; that the block is
  not cut later is not part of this model.
- Instructions.InstructionExact: two addresses of data, in one block; an access that runs from one block into another,
  or that touches three parts, is not covered.
- JointRuns.JointInvariant: of the services, creation, mapping and unmapping only; block entries, the blocks of a
  partition and its VIDT stay the same over a run. Partitions store aligned words; devices do not store.
- Kernel.Core: holds the memory layer by value; the descriptors as objects, with their table arrays and the
  aliasing of them, are in `Mal.MemoryLayer`, whose methods are proved against the same functions, and
  `Kernel.SwitchPartition` takes the layer's part of a switch on them.
- Memory is made of whole words at their addresses; words that overlap in part, as a misaligned VIDT would give,
  are not related.
- YieldProperties.YieldRoundTrip: the callee's current-interrupt word must be no register of the stacked context,
  nor its first word; the kernel writes it before it saves.
- The read through the null context of the retry is an arbitrary value, `stray`.
- The rows of stores into a frame are a loop here, and inner do-while loops, loop branches and rows of stores are
  methods of their own.
- BASEPRI is a boolean; the flags of the kernel's other registers (HFNMIENA, SHCSR) are not modelled.
- PowerOfTwo.MaxPowlog2Alignment: not stated for 1 to 31, on which the source's loop does not end
  (`AlignmentSearchEnds`); no region ends at such an address.
- Format.Snprintf: not stated for the floating-point conversions, nor for formats that end within a conversion or
  lack an argument, which the source reads past; plain `char` is unsigned and `long` 32 bits wide, as on this
  target; the count of characters is unbounded.
- Format.Walk: the same formats.
- Format.PrintConversion: the same conversions.
- `printf_` and its `_out_char`, which keeps a static buffer for the debug output.
- The register and accessor tables, boot code, UART and linker symbols.
