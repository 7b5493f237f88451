# NESpp CPU core in Dafny

A functional model of the core of the NESpp emulator, which emulates the Ricoh 6502-derived CPU of the NES. The model covers:

- **Status register.** The one-byte bit-mapped status register (`BitMappedRegister`) and its eight flag masks.
- **Main bus.** 2 KiB of work RAM at 0x0000-0x07FF, with inert stubs everywhere else and no mirroring. The NES bus class has the identical decode, so one module stands for both.
- **CPU.**
  - Per-access tick accounting, the page-crossing test and the Z/N update.
  - Eleven addressing-mode resolvers.
  - The implemented instruction bodies: ADC, LDA/LDX/LDY, STA, JMP, CLC, SEC, NOP and the `Illegal` placeholder.
  - The 256-slot opcode table, the reset sequence, power-on, and the frame-budgeted `ExecuteInstrFromRAM` run loop.
- **Cartridge.** The iNES header decode in `LoadFile`, modelled over a byte sequence read through a model of the binary input stream. Also NROM (mapper 0) address folding and the PRG/CHR reads.
- **Debugger.** The program loader with its RAM bounds check, `ExecuteInstrFromArray` and the register snapshot.

Model conventions:

- **Values.** Registers and bytes are bounded integers (`Byte`, `Word`); every C++ `uint8_t`/`uint16_t` wrap is written out. The status register is a `bv8`.
- **State.** A `Machine` is an immutable record of the CPU registers and the 2048-byte RAM. Every operation is a pure function returning the next machine.
- **Cost.** Each bus read and write costs exactly one tick, as in the source.
- **Test fixtures.** The fixtures from the CPU test suite are proved as lemmas over a freshly powered-on machine. These are the NOP, ADC-carry, ADC-overflow, indirect-JMP wrap, STA zero-page,X and STA (zp),Y programs.

The model reproduces the code as written, including its quirks:

- **ADC carry.** ADC's carry is `result < A`, which loses the carry when the operand is 0xFF and carry is in.
- **ADC overflow.** ADC's overflow term uses `operand + carry`.
- **(zp,X).** The high byte is read from `pointer+1` without zero-page wrap.
- **Indirect JMP.** Only the pointer's low byte is incremented.
- **Bus.** The bus does no mirroring.
- **Loader limit.** The debugger loader rejects any program reaching 0x07FF.
- **Load address.** `ExecuteInstrFromArray` always loads at 0x0700.
- **Mapper.** The cartridge never rebuilds its mapper.
- **validRom.** `validRom` is set even when the file is short.
- **Opcode 0xFF.** Its table slot is empty. `ExecuteInstruction` excludes it by precondition. The fetch-and-run step and the run loop report it as a `NullHandler` outcome.

## Model

| member | source | states |
|---|---|---|
| StatusRegister.FlagsAreDistinctSingleBits | lib/src/CPU.h:75-85 | The eight flag masks C, Z, I, D, B, unused, V, N are bits 0..7 in order: each a single bit, pairwise disjoint |
| StatusRegister.Test | lib/src/BitMappedRegister.h:12-23 | Returns 0 or 1, and 1 exactly when some bit of the mask is set in the value |
| StatusRegister.Set | lib/src/BitMappedRegister.h:34-38 | Every mask bit becomes 1, every bit outside the mask is unchanged |
| StatusRegister.Clear | lib/src/BitMappedRegister.h:46-50 | Every mask bit becomes 0, every bit outside the mask is unchanged |
| StatusRegister.SetIf | lib/src/CPU.cpp:516-533 | The set-or-clear pattern of the flag updates: mask bits equal the condition, others unchanged |
| StatusRegister.Toggle | lib/src/BitMappedRegister.h:40-44 | Mask bits are inverted, every bit outside the mask is unchanged |
| StatusRegister.ToggleTwiceIsIdentity | lib/src/BitMappedRegister.h:40-44 | Toggling the same mask twice gives back the original value |
| StatusRegister.SetIdempotent | lib/src/BitMappedRegister.h:34-38 | Setting twice equals setting once, and afterwards Test reports 1 for any non-zero mask |
| StatusRegister.ClearIdempotent | lib/src/BitMappedRegister.h:46-50 | Clearing twice equals clearing once, and afterwards Test reports 0 |
| StatusRegister.CountTrailingZerosFrom | lib/src/BitMappedRegister.h:28 | The position found is at or above the start and at most 8; below 8 that bit of the mask is set |
| StatusRegister.NoSetBitBelowCount | lib/src/BitMappedRegister.h:28 | Every bit between the start position and the position found is clear |
| StatusRegister.CountTrailingZeros | lib/src/BitMappedRegister.h:28 | `countr_zero` returns at most 8, and below 8 the bit at that position is set |
| StatusRegister.CountTrailingZerosIsLowest | lib/src/BitMappedRegister.h:28 | Every bit below the count is clear, and the count is 8 exactly for the zero mask |
| StatusRegister.Assign | lib/src/BitMappedRegister.h:25-32 | For a single-bit mask and a value 0 or 1, Test of the mask becomes that value and no other bit changes |
| StatusRegister.AssignLeaksAboveMask | lib/src/BitMappedRegister.h:25-32 | Assigning 2 to the carry mask leaves carry clear and sets the zero flag instead |
| MainBus.Read | lib/src/MainBus.cpp:9-19 | Addresses 0x0000-0x07FF read the RAM byte, every other address reads 0 |
| MainBus.Write | lib/src/MainBus.cpp:21-31 | A RAM address takes the data and no other byte changes; a write elsewhere leaves RAM unchanged |
| MainBus.ResetRAM | lib/src/MainBus.cpp:38-41 | All 2048 RAM bytes are 0xFF |
| MainBus.Tick | lib/src/MainBus.cpp:33-36 | The bus state is unchanged |
| MainBus.WriteThenRead | lib/src/NES.cpp:9-31 | After a write to a RAM address, reading it returns the data and every other address reads as before |
| MainBus.WriteOutsideRamInvisible | lib/src/MainBus.cpp:21-31 | A write outside RAM is invisible to every read |
| MainBus.NoMirroring | lib/src/MainBus.cpp:11-18 | The address 0x0800 above a written RAM address still reads 0 |
| MainBus.ReadAfterReset | lib/src/NES.cpp:38-41 | After a RAM reset every RAM address reads 0xFF |
| Cpu.Tick | lib/src/CPU.cpp:325-329 | Only the cycle counter changes, by one |
| Cpu.Read | lib/src/CPU.cpp:331-335 | Costs exactly one tick, changes nothing else, and returns the bus's value for the address |
| Cpu.Write | lib/src/CPU.cpp:337-341 | Costs exactly one tick. The written address reads the data, or 0 outside RAM, and every other address reads as before |
| Cpu.PageCrossed | lib/src/CPU.cpp:343-353 | True iff the wrapped sum lies on another page than the address; for an offset up to 0xFF, iff the low byte plus the offset exceeds 0xFF |
| Cpu.UpdateZN | lib/src/CPU.cpp:355-374 | Z is set iff the value is 0, N iff its bit 7 is set, and no other status bit changes |
| Addressing.FetchOperand | lib/src/CPU.cpp:383-394 | Returns the byte after PC, advances PC by one (16-bit wrap), costs one tick |
| Addressing.ImpliedMode | lib/src/CPU.cpp:378-381 | Changes nothing and returns 0 |
| Addressing.ImmediateMode | lib/src/CPU.cpp:383-387 | The effective address is the old PC, PC advances by one, no tick is spent, and 0 is returned |
| Addressing.ZeroPageMode | lib/src/CPU.cpp:389-394 | The effective address is the operand byte, so it lies in page zero. Costs one byte and one tick, returns 0 |
| Addressing.AbsoluteMode | lib/src/CPU.cpp:396-402 | The effective address is the little-endian operand word. Costs two bytes and two ticks, returns 0 |
| Addressing.RelativeMode | lib/src/CPU.cpp:405-409 | Returns the raw offset byte (0..255) and leaves the scratch address unchanged |
| Addressing.IndirectMode | lib/src/CPU.cpp:411-425 | The target's low byte is read at the pointer, its high byte at the pointer with only the low byte incremented (xxFF then reads xx00). Costs four ticks |
| Addressing.ZeroPageIndexed | lib/src/CPU.cpp:427-441 | The address is operand plus index mod 256, with one unconditional extra tick; 0 is returned |
| Addressing.AbsoluteIndexed | lib/src/CPU.cpp:443-473 | The address is the operand word plus the index mod 2^16. Returns 1 exactly when the low byte plus the index passes 0xFF |
| Addressing.IndexedIndirectMode | lib/src/CPU.cpp:475-484 | The pointer is (operand + X) mod 256, and the high byte is read at pointer+1 unwrapped. Costs four ticks, returns 0 |
| Addressing.IndirectIndexedMode | lib/src/CPU.cpp:486-501 | The pointer's second byte is read at (zp+1) mod 256. The address is pointer + Y mod 2^16, and the mode returns 1 exactly on a page crossing |
| Addressing.Resolve | lib/src/CPU.h:139-140 | Every mode touches only PC and the scratch address, consuming its operand bytes and ticks. Every mode but Relative returns 0 or 1, and only the indexed absolute and (zp),Y modes return 1 |
| Addressing.ZeroPageIndexWraps | lib/src/CPU.cpp:427-441 | The zero-page indexed modes stay in page zero; an overflowing sum wraps down by 0x100 |
| Instructions.AddWithCarry | lib/src/CPU.cpp:510-538 | A' = A + operand + C mod 256, Z/N from A', C iff A' < A, V from the overflow term on operand + C; I, D, B and bit 5 are unchanged |
| Instructions.AdcStatus | lib/src/CPU.cpp:514-533 | After the Z/N, C and V updates in sequence, each flag holds its own condition and the other four bits are unchanged |
| Instructions.OverflowTermIsBitwise | lib/src/CPU.cpp:529 | The overflow predicate equals bit 7 of `~(A ^ (operand + C)) & (A ^ result)` computed on 16 bits |
| Instructions.AdcCarryQuirk | lib/src/CPU.cpp:516-525 | ADC's carry equals the true unsigned carry except for operand 0xFF with carry in, where it is lost |
| Instructions.AdcOverflowQuirk | lib/src/CPU.cpp:529 | ADC's V equals true signed overflow except for operand 0x7F with carry in, where it is inverted |
| Instructions.IdleOp | lib/src/CPU.cpp:505-508 | The `Illegal` placeholder (and NOP, whose body is the same): one tick, and no register or RAM byte changes |
| Instructions.AdcOp | lib/src/CPU.cpp:510-538 | A and PS take the ADC result on the byte at the effective address. The cost is the mode's ticks plus the read, and the mode's page-cross value is ignored |
| Instructions.LoadOp | lib/src/CPU.cpp:554-588 | The target register gets the byte at the effective address with Z/N following it. The cost is one tick more exactly when the mode returns 1 |
| Instructions.StaOp | lib/src/CPU.cpp:603-612 | A is written to the effective address. AbsoluteX/Y and (zp),Y always pay one extra tick |
| Instructions.JmpOp | lib/src/CPU.cpp:547-552 | PC becomes the effective address; only PC and the cycle counter change |
| Instructions.ClcOp | lib/src/CPU.cpp:540-545 | One tick, carry cleared, no other bit or register changes |
| Instructions.SecOp | lib/src/CPU.cpp:596-601 | One tick, carry set, no other bit or register changes |
| Instructions.ExecutePc | lib/src/CPU.cpp:378-612 | Every body but JMP leaves PC just past its operand bytes |
| Instructions.ExecuteTicks | lib/src/CPU.cpp:505-612 | Every body charges its base ticks, plus one exactly for a load whose mode reported a page crossing |
| OpcodeTable.Decode | lib/src/CPU.cpp:30-286 | Every opcode has a row except 0xFF, which the initialiser leaves empty |
| OpcodeTable.TableCoversEveryOpcode | lib/src/CPU.h:73 | The table has 256 slots, so any opcode byte indexes it |
| OpcodeTable.RowsMatchBodies | lib/src/CPU.cpp:30-286 | Each row agrees with its body. The cycle column is the fetch plus the body's ticks, the length column is the opcode plus the mode's operand bytes, the mnemonic names the body, and no row uses Relative |
| OpcodeTable.UnlistedOpcodesAreIllegal | lib/src/CPU.cpp:30-286 | Every opcode other than the 38 implemented ones and 0xFF maps to the one-byte, two-cycle `Illegal` row |
| Execution.ExecuteInstruction | lib/src/CPU.cpp:319-323 | Requires opcode != 0xFF. The cost is the table's cycle column less the fetch, plus the load page-cross tick; every body but JMP advances PC by the length column less one |
| Execution.StepCostBounds | lib/src/CPU.cpp:30-286 | Every row costs at least two cycles and, with a page-cross tick, at most six |
| Execution.StepInstruction | lib/src/CPU.cpp:289-298 | A fetch hits the empty slot exactly on opcode 0xFF. Otherwise one fetch-and-execute costs 2 to 6 cycles |
| Execution.RunUntil | lib/src/CPU.cpp:293-297 | The cycle counter never decreases and never exceeds the frame budget plus one instruction. A finished run ends with the loop condition false. Termination is proved on the remaining budget |
| Execution.ExecuteInstrFromRAM | lib/src/CPU.cpp:289-298 | Zeroes the counter and starts at the given PC. A finished run fails the loop condition, and a run of length 0 executes nothing |
| Execution.Reset | lib/src/CPU.cpp:302-317 | Sets I (other bits unchanged) and decrements SP by 3 mod 256 with no stack writes. Costs seven cycles and loads PC little-endian from 0xFFFC/0xFFFD |
| Execution.DecrementSp | lib/src/CPU.cpp:308 | SP decreases by one mod 256 and nothing else changes |
| Execution.ResetStartsAtZero | lib/src/CPU.cpp:314-316 | The reset vector is outside RAM, so reset always loads PC = 0 |
| Execution.PowerOn | lib/src/CPU.cpp:8-29 | After construction SP = 0xFD, PS = 0x34, A = X = Y = 0, PC = 0, nine cycles have elapsed, and all of RAM is 0xFF |
| Nrom.PrgWindow | lib/src/mappers/NROM.cpp:9 | The PRG window is at least one 16 KiB bank |
| Nrom.GetAddressPRG | lib/src/mappers/NROM.cpp:7-10 | The folded address is below 16384·banksPRG and never above the input; an address already in the window maps to itself |
| Nrom.PrgFoldRemovesWholeWindows | lib/src/mappers/NROM.cpp:7-10 | The input is the folded address plus a whole number of PRG windows |
| Nrom.FoldPRGIsIdempotent | lib/src/mappers/NROM.cpp:7-10 | Folding a folded PRG address changes nothing |
| Nrom.GetAddressCHR | lib/src/mappers/NROM.cpp:12-15 | The folded address is below 8192 and never above the input, and differs from it by a multiple of 8192 |
| Nrom.FoldCHRIdentityBelowWindow | lib/src/mappers/NROM.cpp:12-15 | Addresses below 8192 map to themselves, and folding is idempotent |
| Nrom.CHRFoldIgnoresBanks | lib/src/mappers/NROM.cpp:12-15 | The CHR fold does not depend on the bank counts |
| Cartridge.NewCartridge | lib/src/Cartridge.cpp:5-12 | A fresh cartridge is not valid and has 32768 zero PRG bytes, 8192 zero CHR bytes, one bank of each, and an NROM(1, 1) mapper |
| Cartridge.Open | lib/src/Cartridge.cpp:16 | The stream starts at position 0, good exactly when the file exists |
| Cartridge.ReadBytes | lib/src/Cartridge.cpp:17 | A good stream yields min(n, remaining) bytes in file order and stays good iff n bytes were there; a bad stream yields nothing |
| Cartridge.Skip | lib/src/Cartridge.cpp:49-52 | A good stream advances by min(n, remaining) and stays good iff n bytes were there; a bad stream is unchanged |
| Cartridge.Overlay | lib/src/Cartridge.cpp:53-54 | The bytes read replace a prefix of the buffer; the rest and the size are kept |
| Cartridge.Resize | lib/src/Cartridge.cpp:24-26 | The buffer takes the new size, keeps its prefix and zero-fills any growth |
| Cartridge.DecodeMirroring | lib/src/Cartridge.cpp:28-39 | Four-screen iff flags6 bit 3; otherwise vertical iff bit 0; otherwise horizontal; never single-screen |
| Cartridge.MapperNumber | lib/src/Cartridge.cpp:41 | The high nibble is flags7's high nibble and the low nibble is flags6's high nibble |
| Cartridge.MapperNumberIsBitwise | lib/src/Cartridge.cpp:41 | The arithmetic reading equals the masked, shifted and or-ed byte expression as written |
| Cartridge.BadMagicChangesNothing | lib/src/Cartridge.cpp:18-22 | A file whose first four bytes are not 4E 45 53 1A changes only the header buffer, so validity is unchanged |
| Cartridge.GoodMagicDecodesHeader | lib/src/Cartridge.cpp:23-55 | With the magic the cartridge becomes valid, the bank counts and buffer sizes come from bytes 4 and 5, the mirroring from flags 6, and the mapper is kept |
| Cartridge.BuildImage | lib/src/Cartridge.h:37-48 | A 16-byte header (magic, bank counts, flags 6 and 7, padding) followed by trainer, PRG and CHR; its length is their sum |
| Cartridge.BuildImageParts | lib/src/Cartridge.h:37-48 | The header fields, PRG and CHR lie at their offsets in a built image |
| Cartridge.LoadBuiltImage | lib/src/Cartridge.cpp:14-56 | Loading a built image (with the trainer that flags 6 bit 2 asks for) returns exactly its PRG and CHR data, bank counts, mirroring and mapper number |
| Cartridge.ReadWhole | lib/src/Cartridge.cpp:53-54 | A read of n bytes from a good stream that holds them returns exactly those bytes and stays good |
| Cartridge.HeaderOnlyFileIsValid | lib/src/Cartridge.cpp:53-55 | A file of a valid header alone still yields a valid cartridge; the resized buffers keep their old contents and zero fill |
| Cartridge.LoadFile | lib/src/Cartridge.cpp:14-56 | The mapper is never rebuilt. The cartridge becomes valid exactly when the header read has the magic (or stays as valid as it was); without the magic only the header buffer changes; with it the bank counts and buffer sizes come from bytes 4 and 5 and the mirroring from flags 6 |
| Cartridge.ReadFromPRG | lib/src/Cartridge.cpp:58-61 | A PRG read inside the window returns that byte; with one PRG bank reads fold mod 16384 |
| Cartridge.ReadFromCHR | lib/src/Cartridge.cpp:63-66 | A CHR read below 8192 returns that byte |
| Cartridge.ChrReadsRepeat | lib/src/Cartridge.cpp:63-66 | CHR reads repeat every 8 KiB |
| Cartridge.ReadsStayInBounds | lib/src/Cartridge.cpp:58-66 | With the NROM(1, 1) mapper, buffers of at least one PRG and one CHR bank keep every read in bounds |
| Cartridge.PrgFoldIgnoresLoadedBanks | lib/src/Cartridge.cpp:11 | After loading a two-bank image the mapper still folds mod 16384, so the read at 0x4000 returns the first PRG byte |
| Debugger.GetCpuState | lib/src/Debugger.cpp:123-126 | The snapshot holds exactly SP, A, X, Y, PS, PC and the cycle counter |
| Debugger.SnapshotSeesOnlyRegisters | lib/src/Debugger.cpp:123-126 | Machines with equal registers give equal snapshots, whatever RAM holds, so the snapshot is a pure read |
| Debugger.LoadInstrFromArray | lib/src/Debugger.cpp:17-24 | Fails with out-of-range iff start + length > 0x7FF. Otherwise RAM[start, start+length) holds the program, every other byte and register is unchanged, and no tick is spent |
| Debugger.LoadedProgramReadsBack | lib/src/Debugger.cpp:23 | Every loaded byte reads back through the bus at its address |
| Debugger.LastRamByteCannotBeLoaded | lib/src/Debugger.cpp:19-22 | A program ending exactly at 0x07FF fits in RAM but is rejected |
| Debugger.ExecuteInstrFromArray | lib/src/Debugger.cpp:115-121 | Fails with out-of-range iff the program does not fit at 0x0700, whatever the start. A finished run returns the snapshot of the final machine, within the frame budget, with the loop condition false. Where the load happens and where the run starts are stated by Fixtures.ExecuteFromArrayIsRun |
| Fixtures.Start | lib/src/Debugger.cpp:115-121 | The run starts with the program at 0x0700 whatever the start address, PC at the start, a zeroed counter, and RAM below 0x0700 unchanged |
| Fixtures.ExecuteFromArrayIsRun | lib/src/Debugger.cpp:115-121 | For every start address, the debugger run is the run loop on the machine with the program at 0x0700 and PC at the start, bounded by start + length: a finished run gives the snapshot, a stop on 0xFF gives the null-handler failure |
| Fixtures.LoadAddressIgnoresStart | lib/src/Debugger.cpp:115-121 | The start address does not move the load: a NOP asked to run from 0x0600 is still placed at 0x0700, so the run fetches the power-on 0xFF at 0x0600 and fails with the null handler |
| Fixtures.StepUnfold | lib/src/CPU.cpp:293-296 | Fetching a defined opcode runs its table body on the fetched machine |
| Fixtures.StepNop | lib/src/CPU.cpp:590-594 | NOP takes two cycles and one byte and changes no register or RAM |
| Fixtures.StepLdxImmediate | lib/src/CPU.cpp:566-576 | LDX #imm takes two cycles and two bytes; X becomes the operand, A and Y are unchanged |
| Fixtures.StepLdxZeroPage | lib/src/CPU.cpp:566-576 | LDX zp takes three cycles and two bytes; X becomes the byte at the zero-page operand |
| Fixtures.StepAdcImmediate | lib/src/CPU.cpp:510-538 | ADC #imm takes two cycles and two bytes; A and PS take the ADC result on the operand |
| Fixtures.StepStaAbsolute | lib/src/CPU.cpp:603-612 | STA abs writes A at the little-endian operand word, in four cycles, changing no register |
| Fixtures.StepLdaImmediate | lib/src/CPU.cpp:554-564 | LDA #imm takes two cycles and two bytes, with A and Z/N from the operand |
| Fixtures.StepStaZeroPageX | lib/src/CPU.cpp:603-612 | STA zp,X writes A at the operand plus X mod 256, in four cycles |
| Fixtures.StepStaZeroPage | lib/src/CPU.cpp:603-612 | STA zp writes A at the zero-page operand, in three cycles, changing no register |
| Fixtures.StepLdyImmediate | lib/src/CPU.cpp:579-588 | LDY #imm takes two cycles and two bytes; Y becomes the operand, A and X are unchanged |
| Fixtures.StepLdxAbsolute | lib/src/CPU.cpp:566-576 | LDX abs takes four cycles and three bytes; X becomes the byte at the little-endian operand word |
| Fixtures.StepStaIndirectIndexed | lib/src/CPU.cpp:486-500 | STA (zp),Y writes A at the page-zero pointer plus Y, in six cycles, changing no register |
| Fixtures.StaIndirectIndexedEffect | lib/src/CPU.cpp:603-612 | On the fetched machine the (zp),Y store consumes one operand byte and five ticks and writes A at the pointer plus Y |
| Fixtures.StepJmpIndirect | lib/src/CPU.cpp:411-425 | JMP (ind) takes five cycles and jumps through the low-byte-wrapping pointer |
| Fixtures.NopFixture | tests/test_CPU.cpp:16-24 | From power-on, NOP at 0x0700 ends with two cycles, PC 0x0701, SP 0xFD and PS 0x34 |
| Fixtures.AdcCarryFixture | tests/test_CPU.cpp:61-71 | LDA #$FE ; ADC #$05 ends with A = 0x03 after four cycles at PC 0x0704, C set and V clear |
| Fixtures.AdcOverflowFixture | tests/test_CPU.cpp:72-82 | LDA #$7F ; ADC #$01 ends with A = 0x80 after four cycles at PC 0x0704, C clear and V set |
| Fixtures.JmpIndirectWrapFixture | tests/test_CPU.cpp:729-736 | The indirect JMP through 0x03FF takes its high byte from 0x0300 and lands on 0x07EF after 17 cycles |
| Fixtures.StaIndirectIndexedFixture | tests/test_CPU.cpp:992-1001 | STA ($3F),Y with the pointer 0x0300 and Y = 0x20 lands on 0x0320, where LDX $0320 finds 0xEF after 24 cycles at PC 0x0711 |
| Fixtures.StaZeroPageXFixture | tests/test_CPU.cpp:946-954 | STA $FE,X with X = 3 lands on 0x0001, where LDX $01 finds 0xEF after 11 cycles at PC 0x0708 |

## Left out

- The GUI and command line (`app/`, `src/main.cpp`): window toolkit, timers and argument handling, none of them part of the core.
- `Debugger::Disassembly`: string formatting only.
- The ownership wrappers (`EmulatorCore`, `Emulator`): shared-pointer plumbing with no logic.
- The `src/` tree: an earlier iteration of the same classes, superseded by `lib/src`. Also `lib/tests/test_CPU.cpp`, which calls functions that no longer exist.
- The unimplemented instructions (AND, ASL, branches, BIT, BRK, CLD/CLI/CLV, CMP/CPX/CPY, DEC/INC, DEX/DEY/INX/INY, EOR, JSR, LSR, ORA and stack operations): their table slots hold `Illegal`, which is what the model runs. Their test fixtures do not hold for this code.
- The accumulator addressing mode: it is declared but never defined or used.
- The `CPU::Run` stub and `ExecuteInstruction`'s commented-out logging.
- Opcode 0xFF:
  - Its slot holds a null member-function pointer, which the source would call.
  - `Execution.ExecuteInstruction` excludes it by precondition.
  - The fetch-and-run step and the run loop stop with a `NullHandler` outcome instead of modelling the undefined call.
  - The debugger reports that outcome as an error.
- The cycle counter is `uint32_t` in the source and unbounded here. A run starts from zero and stops within one frame, so it never approaches the wrap.
- The APU/IO register writes in the CPU constructor are kept only as their tick cost and as bus writes. The bus ignores them, and `0x4000 & lastBits` is always address 0, which the RAM reset then overwrites.
- Uninitialised members are parameters: the initial PC, the scratch address and RAM in `Execution.PowerOn`, and the header and mirroring members of a fresh cartridge.
- The `ifstream` of `Cartridge::LoadFile` is a byte sequence (`None` for a file that cannot be opened) read through a stream model with position and good bit.
- The mapper-number `switch` in `LoadFile` has one empty case, so it changes nothing. The number itself is modelled by `Cartridge.MapperNumber`.
- `LoadFile` resizes the buffers to 16384·banks and 8192·banks but never rebuilds the NROM(1, 1) mapper the constructor made, so the PRG window never changes. A header with zero PRG banks empties the PRG buffer, and every PRG read would then index out of bounds. The `ReadFromPRG` line below covers that.
- Nrom.GetAddressPRG: requires at least one PRG bank. The source would divide by zero with none.
- Cartridge.ReadFromPRG: requires the folded index to lie inside the buffer, where the source would index out of bounds. The same holds for Cartridge.ReadFromCHR.
- The `std::out_of_range` exception of `LoadInstrFromArray` is the `Failure(OutOfRange)` result.
- MainBus and NES carry the same decode; `lib/src/NES.cpp` is modelled by the `MainBus` module.
