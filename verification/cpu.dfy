/** CPU registers and the primitive operations every instruction is built from:
    ticking the clock, bus reads and writes that each cost one tick, the
    page-crossing test and the shared Z/N flag update. */
module Cpu {
  import opened Bytes
  import MainBus
  import SR = StatusRegister

  /** Cycle budget of one NTSC frame, the ceiling of a bounded run. */
  const CYCLES_PER_FRAME: nat := 29781

  /** The CPU's registers. `address` is the scratch effective address that the
      addressing modes leave for the instruction bodies. */
  datatype Registers = Registers(
    pc: Word,
    sp: Byte,
    a: Byte,
    x: Byte,
    y: Byte,
    ps: bv8,
    cycles: nat,
    address: Word)

  /** The CPU together with the bus RAM it reads and writes. */
  datatype Machine = Machine(cpu: Registers, ram: MainBus.Ram)

  /** A bus read: the machine after the read and the byte read. */
  datatype Access = Access(m: Machine, value: Byte)

  /** The byte a bus read at `address` returns, without the tick. */
  function Peek(m: Machine, address: Word): Byte {
    MainBus.Read(m.ram, address)
  }

  /** One clock cycle: the cycle counter advances, the bus tick changes nothing. */
  function Tick(m: Machine): (r: Machine)
    ensures r.cpu == m.cpu.(cycles := m.cpu.cycles + 1)
    ensures r.ram == m.ram
  {
    Machine(m.cpu.(cycles := m.cpu.cycles + 1), MainBus.Tick(m.ram))
  }

  /** A bus read costs exactly one tick and changes nothing else. */
  function Read(m: Machine, address: Word): (r: Access)
    ensures r.m.cpu == m.cpu.(cycles := m.cpu.cycles + 1)
    ensures r.m.ram == m.ram
    ensures MainBus.InRam(address) ==> r.value == m.ram[address]
    ensures !MainBus.InRam(address) ==> r.value == 0
  {
    var t := Tick(m);
    Access(t, MainBus.Read(t.ram, address))
  }

  /** A bus write costs exactly one tick; the RAM changes as the bus decode says. */
  function Write(m: Machine, address: Word, data: Byte): (r: Machine)
    ensures r.cpu == m.cpu.(cycles := m.cpu.cycles + 1)
    ensures MainBus.Read(r.ram, address) == (if MainBus.InRam(address) then data else 0)
    ensures forall other: Word :: other != address ==> MainBus.Read(r.ram, other) == MainBus.Read(m.ram, other)
  {
    var t := Tick(m);
    t.(ram := MainBus.Write(t.ram, address, data))
  }

  /** `x & 0xFF00` for a non-negative x: the page bits of an address. */
  function PageBits(x: nat): nat {
    (x / 0x100 % 0x100) * 0x100
  }

  /** Whether adding `offset` to `address` changes the page, computed as the
      source does on the unwrapped sum. Equivalent to the page of the 16-bit
      wrapped sum differing; for an 8-bit offset, to the low byte overflowing. */
  function PageCrossed(address: Word, offset: Word): (r: bool)
    ensures r <==> Wrap16(address + offset) / 0x100 != address / 0x100
    ensures offset <= 0xFF ==> (r <==> address % 0x100 + offset > 0xFF)
  {
    PageBits(address + offset) != PageBits(address)
  }

  /** Z is set iff the value is 0 and N iff its bit 7 is set; no other bit changes. */
  function UpdateZN(ps: bv8, value: Byte): (r: bv8)
    ensures SR.Test(r, SR.Z) == 1 <==> value == 0
    ensures SR.Test(r, SR.N) == 1 <==> SignBit(value)
    ensures r & !(SR.Z | SR.N) == ps & !(SR.Z | SR.N)
  {
    var withZ := if value == 0 then SR.Set(ps, SR.Z) else SR.Clear(ps, SR.Z);
    // (value & 0x80) != 0
    if Bit7(value) == 1 then SR.Set(withZ, SR.N) else SR.Clear(withZ, SR.N)
  }

  /** Nothing but the cycle counter, the program counter and the scratch
      address differs between two machines. */
  predicate SameExceptPcAndCycles(m: Machine, r: Machine) {
    && r.ram == m.ram
    && r.cpu.a == m.cpu.a
    && r.cpu.x == m.cpu.x
    && r.cpu.y == m.cpu.y
    && r.cpu.sp == m.cpu.sp
    && r.cpu.ps == m.cpu.ps
  }
}
