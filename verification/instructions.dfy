/** The instruction bodies the CPU implements: ADC, LDA/LDX/LDY, STA, JMP, CLC,
    SEC, NOP and the placeholder for every other opcode. */
module Instructions {
  import opened Bytes
  import opened Cpu
  import opened Addressing
  import SR = StatusRegister

  /** The three load targets. */
  datatype Target = A | X | Y

  /** Instruction bodies, each with the addressing mode it is instantiated for. */
  datatype Handler =
    | Illegal
    | Adc(mode: Mode)
    | Clc
    | Jmp(mode: Mode)
    | Load(target: Target, mode: Mode)
    | Nop
    | Sec
    | Sta(mode: Mode)

  /** A and PS after ADC. */
  datatype AluResult = AluResult(a: Byte, ps: bv8)

  /** Two's-complement value of a byte. */
  function Signed(b: Byte): int {
    if b < 0x80 then b else b - 0x100
  }

  /** The true signed overflow of A + operand + carry. */
  predicate SignedOverflow(a: Byte, operand: Byte, carry: int) {
    var s := Signed(a) + Signed(operand) + carry;
    s < -0x80 || s > 0x7F
  }

  /** ADC's overflow term: bit 7 of `~(A ^ (operand + carry)) & (A ^ result)`,
      with `operand + carry` the unwrapped sum (0..256). Every operator is
      bitwise, so bit 7 of the expression is the same expression on the bit 7s. */
  predicate OverflowTerm(a: Byte, operandPlusCarry: nat, result: Byte)
    requires operandPlusCarry <= 0x100
  {
    var notXor := 1 - (Bit7(a) + Bit7(operandPlusCarry)) % 2;  // ~(A ^ k)
    var xorResult := (Bit7(a) + Bit7(result)) % 2;               // A ^ result
    notXor == 1 && xorResult == 1                                // & 0x80
  }

  /** The bit-7 reading agrees with the 16-bit expression as written. */
  lemma OverflowTermIsBitwise(a: Byte, operandPlusCarry: nat, result: Byte)
    requires operandPlusCarry <= 0x100
    ensures OverflowTerm(a, operandPlusCarry, result)
            <==> (!(a as bv16 ^ operandPlusCarry as bv16) & (a as bv16 ^ result as bv16)) & 0x80 != 0
  {
    Bit7OfSmall(a);
    Bit7OfSmall(operandPlusCarry);
    Bit7OfSmall(result);
    OverflowTermBits(a as bv16, operandPlusCarry as bv16, result as bv16);
  }

  /** The arithmetic of ADC: the 8-bit sum with carry in, Z and N from the
      result, then C iff the result is below A (8-bit compare), then V from the
      overflow term; I, D, B and the unused bit are left alone. */
  function AddWithCarry(a: Byte, operand: Byte, ps: bv8): (r: AluResult)
    ensures r.a == (a + operand + SR.Test(ps, SR.C)) % 0x100
    ensures SR.Test(r.ps, SR.Z) == 1 <==> r.a == 0
    ensures SR.Test(r.ps, SR.N) == 1 <==> SignBit(r.a)
    ensures SR.Test(r.ps, SR.C) == 1 <==> r.a < a
    ensures SR.Test(r.ps, SR.V) == 1 <==> OverflowTerm(a, operand + SR.Test(ps, SR.C), r.a)
    ensures r.ps & 0x3C == ps & 0x3C
  {
    var carry := SR.Test(ps, SR.C);
    var result := Wrap8(a + operand + carry);
    AluResult(result, AdcStatus(ps, result, result < a, OverflowTerm(a, operand + carry, result)))
  }

  /** The status byte after ADC: Z/N from the result, then C, then V written
      one after the other. Each flag ends up as its own update left it, and I,
      D, B and the unused bit as they were. */
  function AdcStatus(ps: bv8, result: Byte, carry: bool, overflow: bool): (r: bv8)
    ensures SR.Test(r, SR.Z) == 1 <==> result == 0
    ensures SR.Test(r, SR.N) == 1 <==> SignBit(result)
    ensures SR.Test(r, SR.C) == 1 <==> carry
    ensures SR.Test(r, SR.V) == 1 <==> overflow
    ensures r & 0x3C == ps & 0x3C
  {
    var ps1 := UpdateZN(ps, result);
    var ps2 := SR.SetIf(ps1, SR.C, carry);
    var ps3 := SR.SetIf(ps2, SR.V, overflow);
    FlagUpdatesCompose(ps, ps1, ps2, ps3);
    SR.SameBitsSameTest(ps3, ps1, SR.Z);
    SR.SameBitsSameTest(ps3, ps1, SR.N);
    SR.SameBitsSameTest(ps3, ps2, SR.C);
    ps3
  }

  /** Updating Z/N, then C, then V keeps each earlier update and the I, D, B
      and unused bits. */
  lemma FlagUpdatesCompose(ps: bv8, ps1: bv8, ps2: bv8, ps3: bv8)
    requires ps1 & !(SR.Z | SR.N) == ps & !(SR.Z | SR.N)
    requires ps2 & !SR.C == ps1 & !SR.C
    requires ps3 & !SR.V == ps2 & !SR.V
    ensures ps3 & 0x3C == ps & 0x3C
    ensures ps3 & SR.Z == ps1 & SR.Z && ps3 & SR.N == ps1 & SR.N
    ensures ps3 & SR.C == ps2 & SR.C
  {
  }

  lemma Bit7OfSmall(x: nat)
    requires x <= 0x100
    ensures (x as bv16) & 0x80 != 0 <==> Bit7(x) == 1
  {
    if x < 0x100 {
      assert (x as bv16) & 0x80 != 0 <==> x >= 0x80;
    } else {
      assert x as bv16 == 0x100;
    }
  }

  lemma OverflowTermBits(p: bv16, k: bv16, r: bv16)
    ensures (!(p ^ k) & (p ^ r)) & 0x80 != 0
            <==> ((p & 0x80 != 0) == (k & 0x80 != 0)) && ((p & 0x80 != 0) != (r & 0x80 != 0))
  {
  }

  /** ADC's carry against the true unsigned carry: they agree except when the
      operand is 0xFF and carry is in, where the result equals A and the carry
      is lost. */
  lemma {:induction false} AdcCarryQuirk(a: Byte, operand: Byte, ps: bv8)
    ensures var carry := SR.Test(ps, SR.C);
            SR.Test(AddWithCarry(a, operand, ps).ps, SR.C) == 1
            <==> a + operand + carry > 0xFF && !(operand == 0xFF && carry == 1)
  {
    var carry := SR.Test(ps, SR.C);
    var r := AddWithCarry(a, operand, ps);
    if operand == 0xFF && carry == 1 {
      assert r.a == a;
    } else {
      assert operand + carry <= 0xFF;
    }
  }

  /** ADC's V against the true signed overflow: they agree except when the
      operand is 0x7F and carry is in (operand+carry = 0x80 flips the sign
      compared), where V is the negation of the true overflow. */
  lemma {:induction false} AdcOverflowQuirk(a: Byte, operand: Byte, ps: bv8)
    ensures var carry := SR.Test(ps, SR.C);
            SR.Test(AddWithCarry(a, operand, ps).ps, SR.V) == 1
            <==> (if operand == 0x7F && carry == 1 then !SignedOverflow(a, operand, carry)
                  else SignedOverflow(a, operand, carry))
  {
    var carry := SR.Test(ps, SR.C);
    var r := AddWithCarry(a, operand, ps);
  }

  /** The body shared by the placeholder for unimplemented opcodes and by NOP:
      one tick and nothing else. */
  function IdleOp(m: Machine): (r: Machine)
    ensures r.cpu == m.cpu.(cycles := m.cpu.cycles + 1) && r.ram == m.ram
  {
    Tick(m)
  }

  /** ADC: resolve, read the operand, add. The mode's page-cross result is ignored. */
  function AdcOp(mode: Mode, m: Machine): (r: Machine)
    ensures var k := Resolve(mode, m);
            var alu := AddWithCarry(m.cpu.a, Peek(m, k.m.cpu.address), m.cpu.ps);
            && r.ram == m.ram
            && r.cpu == k.m.cpu.(a := alu.a, ps := alu.ps, cycles := m.cpu.cycles + ModeTicks(mode) + 1)
  {
    var k := Resolve(mode, m);
    var operand := Read(k.m, k.m.cpu.address);
    var alu := AddWithCarry(operand.m.cpu.a, operand.value, operand.m.cpu.ps);
    operand.m.(cpu := operand.m.cpu.(a := alu.a, ps := alu.ps))
  }

  /** LDA/LDX/LDY: one extra tick iff the mode reports 1, then the operand is
      read into the target with Z/N following it. */
  function LoadOp(target: Target, mode: Mode, m: Machine): (r: Machine)
    ensures var k := Resolve(mode, m);
            var value := Peek(m, k.m.cpu.address);
            && r.ram == m.ram
            && r.cpu.cycles == m.cpu.cycles + ModeTicks(mode) + 1 + (if k.extra == 1 then 1 else 0)
            && r.cpu.pc == k.m.cpu.pc
            && r.cpu.sp == m.cpu.sp
            && r.cpu.ps == UpdateZN(m.cpu.ps, value)
            && r.cpu.a == (if target == A then value else m.cpu.a)
            && r.cpu.x == (if target == X then value else m.cpu.x)
            && r.cpu.y == (if target == Y then value else m.cpu.y)
  {
    var k := Resolve(mode, m);
    var m1 := if k.extra == 1 then Tick(k.m) else k.m;
    var operand := Read(m1, m1.cpu.address);
    var m2 := operand.m.(cpu := operand.m.cpu.(ps := UpdateZN(operand.m.cpu.ps, operand.value)));
    match target
    case A => m2.(cpu := m2.cpu.(a := operand.value))
    case X => m2.(cpu := m2.cpu.(x := operand.value))
    case Y => m2.(cpu := m2.cpu.(y := operand.value))
  }

  /** The modes for which STA always pays the index tick. */
  predicate StoreChargesIndex(mode: Mode) {
    mode == AbsoluteX || mode == AbsoluteY || mode == IndirectIndexed
  }

  /** STA: A is written to the effective address; the AbsoluteX, AbsoluteY and
      IndirectIndexed variants tick once more whether or not a page is crossed. */
  function StaOp(mode: Mode, m: Machine): (r: Machine)
    ensures var k := Resolve(mode, m);
            && r.cpu == k.m.cpu.(cycles := m.cpu.cycles + ModeTicks(mode) + 1 + (if StoreChargesIndex(mode) then 1 else 0))
            && r.ram == MainBus.Write(m.ram, k.m.cpu.address, m.cpu.a)
  {
    var k := Resolve(mode, m);
    var m1 := if StoreChargesIndex(mode) then Tick(k.m) else k.m;
    Write(m1, m1.cpu.address, m1.cpu.a)
  }

  /** JMP: PC becomes the effective address. */
  function JmpOp(mode: Mode, m: Machine): (r: Machine)
    ensures var k := Resolve(mode, m);
            && SameExceptPcAndCycles(m, r)
            && r.cpu.pc == k.m.cpu.address
            && r.cpu.cycles == m.cpu.cycles + ModeTicks(mode)
  {
    var k := Resolve(mode, m);
    k.m.(cpu := k.m.cpu.(pc := k.m.cpu.address))
  }

  /** CLC: one tick, carry cleared, nothing else changes. */
  function ClcOp(m: Machine): (r: Machine)
    ensures r.ram == m.ram
    ensures r.cpu == m.cpu.(cycles := m.cpu.cycles + 1, ps := r.cpu.ps)
    ensures SR.Test(r.cpu.ps, SR.C) == 0
    ensures r.cpu.ps & !SR.C == m.cpu.ps & !SR.C
  {
    var t := Tick(m);
    t.(cpu := t.cpu.(ps := SR.Clear(t.cpu.ps, SR.C)))
  }

  /** SEC: one tick, carry set, nothing else changes. */
  function SecOp(m: Machine): (r: Machine)
    ensures r.ram == m.ram
    ensures r.cpu == m.cpu.(cycles := m.cpu.cycles + 1, ps := r.cpu.ps)
    ensures SR.Test(r.cpu.ps, SR.C) == 1
    ensures r.cpu.ps & !SR.C == m.cpu.ps & !SR.C
  {
    var t := Tick(m);
    t.(cpu := t.cpu.(ps := SR.Set(t.cpu.ps, SR.C)))
  }

  /** Runs one instruction body on a machine whose PC is past the opcode. */
  function Execute(h: Handler, m: Machine): Machine {
    match h
    case Illegal => IdleOp(m)
    case Adc(mode) => AdcOp(mode, m)
    case Clc => ClcOp(m)
    case Jmp(mode) => JmpOp(mode, m)
    case Load(target, mode) => LoadOp(target, mode, m)
    case Nop => IdleOp(m)
    case Sec => SecOp(m)
    case Sta(mode) => StaOp(mode, m)
  }

  /** Ticks an instruction body charges apart from a load's page-cross tick:
      its resolver, plus one for the operand read or the store, plus STA's
      index tick, or one internal tick for the implied instructions. */
  function BaseTicks(h: Handler): nat {
    match h
    case Illegal | Clc | Nop | Sec => 1
    case Adc(mode) => ModeTicks(mode) + 1
    case Load(_, mode) => ModeTicks(mode) + 1
    case Sta(mode) => ModeTicks(mode) + 1 + (if StoreChargesIndex(mode) then 1 else 0)
    case Jmp(mode) => ModeTicks(mode)
  }

  /** Whether the body charges the page-cross tick on this machine: only loads do,
      and only when their resolver returned 1. */
  predicate LoadPageCross(h: Handler, m: Machine) {
    h.Load? && Resolve(h.mode, m).extra == 1
  }

  /** The addressing mode a body resolves; the implied instructions and the
      placeholder read no operand. */
  function HandlerMode(h: Handler): Mode {
    match h
    case Illegal | Clc | Nop | Sec => Implied
    case Adc(mode) => mode
    case Jmp(mode) => mode
    case Load(_, mode) => mode
    case Sta(mode) => mode
  }

  /** Every body but JMP leaves PC just past its operand bytes. */
  lemma {:induction false} ExecutePc(h: Handler, m: Machine)
    requires !h.Jmp?
    ensures Execute(h, m).cpu.pc == Wrap16(m.cpu.pc + OperandLength(HandlerMode(h)))
  {
    match h
    case Illegal =>
    case Adc(mode) =>
    case Clc =>
    case Load(target, mode) =>
    case Nop =>
    case Sec =>
    case Sta(mode) =>
  }

  /** Every body charges its base ticks plus, for loads, one more exactly when
      the resolver reported a page crossing; ADC and STA never depend on it. */
  lemma {:induction false} ExecuteTicks(h: Handler, m: Machine)
    ensures Execute(h, m).cpu.cycles
            == m.cpu.cycles + BaseTicks(h) + (if LoadPageCross(h, m) then 1 else 0)
  {
    match h
    case Illegal =>
    case Adc(mode) =>
    case Clc =>
    case Jmp(mode) =>
    case Load(target, mode) =>
    case Nop =>
    case Sec =>
    case Sta(mode) =>
  }
}
