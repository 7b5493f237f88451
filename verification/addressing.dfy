/** The addressing-mode resolvers. Each consumes its operand bytes at PC, issues
    its bus reads (one tick each) and internal ticks, leaves the effective
    address in the scratch register and returns its extra-cycle count. */
module Addressing {
  import opened Bytes
  import opened Cpu

  /** The resolvers the CPU defines. The accumulator mode is declared but
      never defined, so it has no resolver here. */
  datatype Mode =
    | Implied
    | Immediate
    | ZeroPage
    | Absolute
    | Relative
    | Indirect
    | ZeroPageX
    | ZeroPageY
    | AbsoluteX
    | AbsoluteY
    | IndexedIndirect
    | IndirectIndexed

  /** A resolved operand: the machine afterwards and the resolver's return value. */
  datatype Resolved = Resolved(m: Machine, extra: int)

  /** Operand bytes following the opcode, in instruction-stream order. */
  function OperandLength(mode: Mode): nat {
    match mode
    case Implied => 0
    case Immediate | ZeroPage | Relative | ZeroPageX | ZeroPageY
      | IndexedIndirect | IndirectIndexed => 1
    case Absolute | Indirect | AbsoluteX | AbsoluteY => 2
  }

  /** Ticks a resolver spends: one per bus read plus one for the 8-bit index
      addition of the zero-page indexed modes. */
  function ModeTicks(mode: Mode): nat {
    match mode
    case Implied | Immediate => 0
    case ZeroPage | Relative => 1
    case Absolute | ZeroPageX | ZeroPageY | AbsoluteX | AbsoluteY => 2
    case IndirectIndexed => 3
    case Indirect | IndexedIndirect => 4
  }

  /** The i-th operand byte after the opcode, as the bus returns it. */
  function Operand(m: Machine, i: nat): Byte {
    Peek(m, Wrap16(m.cpu.pc + i))
  }

  /** The little-endian word formed by the two operand bytes. */
  function OperandWord(m: Machine): Word {
    MakeWord(Operand(m, 0), Operand(m, 1))
  }

  /** What every resolver guarantees: the bus RAM, A, X, Y, SP and PS are
      untouched, PC has moved past the operand bytes and the clock has advanced
      by the resolver's ticks. */
  predicate Consumes(m: Machine, r: Machine, mode: Mode) {
    && SameExceptPcAndCycles(m, r)
    && r.cpu.pc == Wrap16(m.cpu.pc + OperandLength(mode))
    && r.cpu.cycles == m.cpu.cycles + ModeTicks(mode)
  }

  /** Reads the byte at PC and advances PC. */
  function FetchOperand(m: Machine): (r: Access)
    ensures r.value == Operand(m, 0)
    ensures r.m.cpu == m.cpu.(pc := Wrap16(m.cpu.pc + 1), cycles := m.cpu.cycles + 1)
    ensures r.m.ram == m.ram
  {
    var f := Read(m, m.cpu.pc);
    Access(f.m.(cpu := f.m.cpu.(pc := Wrap16(m.cpu.pc + 1))), f.value)
  }

  function SetAddress(m: Machine, address: Word): Machine {
    m.(cpu := m.cpu.(address := address))
  }

  /** No operand: nothing is read and the scratch address keeps its value. */
  function ImpliedMode(m: Machine): (r: Resolved)
    ensures r.m == m && r.extra == 0
  {
    Resolved(m, 0)
  }

  /** The operand is the byte at PC itself. */
  function ImmediateMode(m: Machine): (r: Resolved)
    ensures Consumes(m, r.m, Immediate) && r.extra == 0
    ensures r.m.cpu.address == m.cpu.pc
  {
    Resolved(m.(cpu := m.cpu.(address := m.cpu.pc, pc := Wrap16(m.cpu.pc + 1))), 0)
  }

  /** An 8-bit address into page zero. */
  function ZeroPageMode(m: Machine): (r: Resolved)
    ensures Consumes(m, r.m, ZeroPage) && r.extra == 0
    ensures r.m.cpu.address == Operand(m, 0) && r.m.cpu.address < 0x100
  {
    var p := FetchOperand(m);
    Resolved(SetAddress(p.m, p.value), 0)
  }

  /** A full 16-bit little-endian address. */
  function AbsoluteMode(m: Machine): (r: Resolved)
    ensures Consumes(m, r.m, Absolute) && r.extra == 0
    ensures r.m.cpu.address == OperandWord(m)
  {
    var lo := FetchOperand(m);
    var hi := FetchOperand(lo.m);
    Resolved(SetAddress(hi.m, MakeWord(lo.value, hi.value)), 0)
  }

  /** Reads the 8-bit branch offset and returns it unchanged; the scratch
      address is not set. No instruction in the table uses this mode. */
  function RelativeMode(m: Machine): (r: Resolved)
    ensures Consumes(m, r.m, Relative)
    ensures r.extra == Operand(m, 0) && 0 <= r.extra <= 0xFF
    ensures r.m.cpu.address == m.cpu.address
  {
    var p := FetchOperand(m);
    Resolved(p.m, p.value)
  }

  /** JMP's pointer mode: the high byte of the target comes from the pointer
      with only its low byte incremented, so a pointer at xxFF takes it from xx00. */
  function IndirectMode(m: Machine): (r: Resolved)
    ensures Consumes(m, r.m, Indirect) && r.extra == 0
    ensures var lo := Operand(m, 0);
            var hi := Operand(m, 1);
            r.m.cpu.address == MakeWord(Peek(m, MakeWord(lo, hi)), Peek(m, MakeWord(Wrap8(lo + 1), hi)))
  {
    var pointerLow := FetchOperand(m);
    var pointerHigh := FetchOperand(pointerLow.m);
    var low := Read(pointerHigh.m, MakeWord(pointerLow.value, pointerHigh.value));
    var high := Read(low.m, MakeWord(Wrap8(pointerLow.value + 1), pointerHigh.value));
    Resolved(SetAddress(high.m, MakeWord(low.value, high.value)), 0)
  }

  /** Zero page plus an index register, wrapped inside page zero; the index
      addition always costs one tick. */
  function ZeroPageIndexed(m: Machine, index: Byte): (r: Resolved)
    ensures SameExceptPcAndCycles(m, r.m) && r.extra == 0
    ensures r.m.cpu.pc == Wrap16(m.cpu.pc + 1) && r.m.cpu.cycles == m.cpu.cycles + 2
    ensures r.m.cpu.address == (Operand(m, 0) + index) % 0x100
  {
    var p := FetchOperand(m);
    var t := Tick(p.m);
    Resolved(SetAddress(t, (p.value + index) % 256), 0)
  }

  /** A 16-bit address plus an index register, wrapped to 16 bits; returns 1
      exactly when the addition crosses a page. */
  function AbsoluteIndexed(m: Machine, index: Byte): (r: Resolved)
    ensures SameExceptPcAndCycles(m, r.m)
    ensures r.m.cpu.pc == Wrap16(m.cpu.pc + 2) && r.m.cpu.cycles == m.cpu.cycles + 2
    ensures r.m.cpu.address == Wrap16(OperandWord(m) + index)
    ensures r.extra == (if OperandWord(m) % 0x100 + index > 0xFF then 1 else 0)
  {
    var lo := FetchOperand(m);
    var hi := FetchOperand(lo.m);
    var base := MakeWord(lo.value, hi.value);
    Resolved(SetAddress(hi.m, Wrap16(base + index)), if PageCrossed(base, index) then 1 else 0)
  }

  /** (zp,X): the pointer is the operand plus X wrapped to 8 bits, with one tick
      for the addition; the target's high byte is read at pointer+1 as a 16-bit
      address, so a pointer of 0xFF takes it from 0x0100. */
  function IndexedIndirectMode(m: Machine): (r: Resolved)
    ensures Consumes(m, r.m, IndexedIndirect) && r.extra == 0
    ensures var pointer := (Operand(m, 0) + m.cpu.x) % 0x100;
            r.m.cpu.address == MakeWord(Peek(m, pointer), Peek(m, pointer + 1))
  {
    var p := FetchOperand(m);
    var t := Tick(p.m);
    var pointer := Wrap8(p.value + m.cpu.x);
    var low := Read(t, pointer);
    var high := Read(low.m, pointer + 1);
    Resolved(SetAddress(high.m, MakeWord(low.value, high.value)), 0)
  }

  /** (zp),Y: a pointer read from page zero (its second byte wrapping inside
      page zero) plus Y, wrapped to 16 bits; returns 1 exactly on a page crossing. */
  function IndirectIndexedMode(m: Machine): (r: Resolved)
    ensures Consumes(m, r.m, IndirectIndexed)
    ensures var zp := Operand(m, 0);
            var pointer := MakeWord(Peek(m, zp), Peek(m, Wrap8(zp + 1)));
            && r.m.cpu.address == Wrap16(pointer + m.cpu.y)
            && r.extra == (if pointer % 0x100 + m.cpu.y > 0xFF then 1 else 0)
  {
    var p := FetchOperand(m);
    var low := Read(p.m, p.value);
    var high := Read(low.m, Wrap8(p.value + 1));
    var pointer := MakeWord(low.value, high.value);
    Resolved(SetAddress(high.m, Wrap16(pointer + m.cpu.y)), if PageCrossed(pointer, m.cpu.y) then 1 else 0)
  }

  /** Dispatch on the mode. Every resolver consumes exactly its operand bytes
      and ticks, touches no register but PC and the scratch address, and
      returns 0 or 1, except Relative, which returns its raw offset. */
  function Resolve(mode: Mode, m: Machine): (r: Resolved)
    ensures Consumes(m, r.m, mode)
    ensures mode != Relative ==> r.extra == 0 || r.extra == 1
    ensures mode !in {AbsoluteX, AbsoluteY, IndirectIndexed, Relative} ==> r.extra == 0
  {
    match mode
    case Implied => ImpliedMode(m)
    case Immediate => ImmediateMode(m)
    case ZeroPage => ZeroPageMode(m)
    case Absolute => AbsoluteMode(m)
    case Relative => RelativeMode(m)
    case Indirect => IndirectMode(m)
    case ZeroPageX => ZeroPageIndexed(m, m.cpu.x)
    case ZeroPageY => ZeroPageIndexed(m, m.cpu.y)
    case AbsoluteX => AbsoluteIndexed(m, m.cpu.x)
    case AbsoluteY => AbsoluteIndexed(m, m.cpu.y)
    case IndexedIndirect => IndexedIndirectMode(m)
    case IndirectIndexed => IndirectIndexedMode(m)
  }

  /** The zero-page indexed modes never leave page zero, whatever the index. */
  lemma ZeroPageIndexWraps(m: Machine)
    ensures Resolve(ZeroPageX, m).m.cpu.address < 0x100
    ensures Resolve(ZeroPageY, m).m.cpu.address < 0x100
    ensures Operand(m, 0) + m.cpu.x > 0xFF ==>
              Resolve(ZeroPageX, m).m.cpu.address == Operand(m, 0) + m.cpu.x - 0x100
  {
  }
}
