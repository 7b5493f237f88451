/** Driving the CPU: dispatching a fetched opcode through the table, the reset
    sequence, power-on and the frame-budgeted run loop. */
module Execution {
  import opened Bytes
  import opened Wrappers
  import opened Cpu
  import opened Addressing
  import opened Instructions
  import opened OpcodeTable
  import MainBus
  import SR = StatusRegister

  /** Runs the body the table lists for an opcode already fetched (PC is past
      it). Slot 0xFF has no handler, so that opcode is excluded. The cost is the
      table's cycle column less the fetch, plus one for a load whose mode
      crossed a page; every body but JMP leaves PC past its operand bytes. */
  function ExecuteInstruction(m: Machine, opcode: Byte): (r: Machine)
    requires opcode != 0xFF
    ensures var e := Decode(opcode).value;
            && r.cpu.cycles == m.cpu.cycles + e.cycles - 1 + (if LoadPageCross(e.handler, m) then 1 else 0)
            && (!e.handler.Jmp? ==> r.cpu.pc == Wrap16(m.cpu.pc + e.bytes - 1))
  {
    var h := Decode(opcode).value.handler;
    RowsMatchBodies(opcode);
    ExecuteTicks(h, m);
    var r := Execute(h, m);
    if h.Jmp? then r else ExecutePc(h, m); r
  }

  /** No row costs less than two cycles or, with a load's page-cross tick,
      more than six. */
  lemma {:induction false} StepCostBounds(opcode: Byte, m: Machine)
    requires opcode != 0xFF
    ensures var e := Decode(opcode).value;
            && 2 <= e.cycles
            && e.cycles + (if LoadPageCross(e.handler, m) then 1 else 0) <= 6
  {
    var e := Decode(opcode).value;
    if LoadPageCross(e.handler, m) {
      var mode := e.handler.mode;
      assert mode in {AbsoluteX, AbsoluteY, IndirectIndexed};
    }
    match opcode
    case 0x18 =>
    case 0x38 =>
    case 0x4C =>
    case 0x61 =>
    case 0x65 =>
    case 0x69 =>
    case 0x6C =>
    case 0x6D =>
    case 0x71 =>
    case 0x75 =>
    case 0x79 =>
    case 0x7D =>
    case 0x81 =>
    case 0x85 =>
    case 0x8D =>
    case 0x91 =>
    case 0x95 =>
    case 0x99 =>
    case 0x9D =>
    case 0xA0 =>
    case 0xA1 =>
    case 0xA2 =>
    case 0xA4 =>
    case 0xA5 =>
    case 0xA6 =>
    case 0xA9 =>
    case 0xAC =>
    case 0xAD =>
    case 0xAE =>
    case 0xB1 =>
    case 0xB4 =>
    case 0xB5 =>
    case 0xB6 =>
    case 0xB9 =>
    case 0xBC =>
    case 0xBD =>
    case 0xBE =>
    case 0xEA =>
    case _ =>
  }

  /** The result of fetching and running one instruction. */
  datatype Step =
    | Executed(m: Machine)
    | NullHandler(m: Machine)  // fetched 0xFF, whose slot holds no handler

  /** Fetches the opcode at PC (one tick, PC advances) and runs it. */
  function StepInstruction(m: Machine): (r: Step)
    ensures r.NullHandler? <==> Peek(m, m.cpu.pc) == 0xFF
    ensures r.NullHandler? ==> r.m.cpu.cycles == m.cpu.cycles + 1
    ensures r.Executed? ==> m.cpu.cycles + 2 <= r.m.cpu.cycles <= m.cpu.cycles + 6
  {
    var f := Read(m, m.cpu.pc);
    var fetched := f.m.(cpu := f.m.cpu.(pc := Wrap16(m.cpu.pc + 1)));
    if f.value == 0xFF then NullHandler(fetched)
    else
      StepCostBounds(f.value, fetched);
      Executed(ExecuteInstruction(fetched, f.value))
  }

  /** How a run ends: the loop condition failed, or an 0xFF opcode was fetched. */
  datatype RunOutcome =
    | Finished(m: Machine)
    | Stopped(m: Machine)

  /** The loop body of a run: while PC is below `end` and the frame budget is
      not spent, fetch and execute. Every instruction costs at least one tick,
      so the remaining budget shrinks on each pass. */
  function RunUntil(m: Machine, end: nat): (r: RunOutcome)
    ensures m.cpu.cycles <= r.m.cpu.cycles
    ensures r.m.cpu.cycles <= Max(m.cpu.cycles, CYCLES_PER_FRAME + 5)
    ensures r.Finished? ==> !(r.m.cpu.pc < end && r.m.cpu.cycles < CYCLES_PER_FRAME)
    ensures r.Stopped? ==> r.m.cpu.cycles <= CYCLES_PER_FRAME
    decreases CYCLES_PER_FRAME - m.cpu.cycles
  {
    if !(m.cpu.pc < end && m.cpu.cycles < CYCLES_PER_FRAME) then Finished(m)
    else
      match StepInstruction(m)
      case NullHandler(m1) => Stopped(m1)
      case Executed(m1) => RunUntil(m1, end)
  }

  function Max(a: int, b: int): int {
    if a <= b then b else a
  }

  /** `ExecuteInstrFromRAM`: zeroes the cycle counter, sets PC to the start and
      runs while PC is below start + number and fewer than CYCLES_PER_FRAME
      cycles have elapsed. */
  function ExecuteInstrFromRAM(m: Machine, start: Word, number: nat): (r: RunOutcome)
    ensures r.m.cpu.cycles <= CYCLES_PER_FRAME + 5
    ensures r.Finished? ==> !(r.m.cpu.pc < start + number && r.m.cpu.cycles < CYCLES_PER_FRAME)
    ensures number == 0 ==> r == Finished(m.(cpu := m.cpu.(cycles := 0, pc := start)))
  {
    RunUntil(m.(cpu := m.cpu.(cycles := 0, pc := start)), start + number)
  }

  /** The reset sequence: sets I, spends five internal ticks while SP is
      decremented three times (nothing is pushed), then loads PC little-endian
      from the vector at 0xFFFC/0xFFFD. */
  function Reset(m: Machine): (r: Machine)
    ensures SR.Test(r.cpu.ps, SR.I) == 1 && r.cpu.ps & !SR.I == m.cpu.ps & !SR.I
    ensures r.cpu.sp == (m.cpu.sp - 3) % 0x100
    ensures r.cpu.pc == MakeWord(Peek(m, 0xFFFC), Peek(m, 0xFFFD))
    ensures r.cpu.cycles == m.cpu.cycles + 7
    ensures r.ram == m.ram
    ensures r.cpu.a == m.cpu.a && r.cpu.x == m.cpu.x && r.cpu.y == m.cpu.y
  {
    var m0 := m.(cpu := m.cpu.(ps := SR.Set(m.cpu.ps, SR.I)));
    var m1 := Tick(Tick(Tick(m0)));
    var m2 := DecrementSp(m1);
    var m3 := DecrementSp(Tick(m2));
    var m4 := DecrementSp(Tick(m3));
    var low := Read(m4, 0xFFFC);
    var high := Read(low.m, 0xFFFD);
    high.m.(cpu := high.m.cpu.(pc := MakeWord(low.value, high.value)))
  }

  /** `SP--` on the 8-bit stack pointer. */
  function DecrementSp(m: Machine): (r: Machine)
    ensures r.cpu == m.cpu.(sp := (m.cpu.sp - 1) % 0x100) && r.ram == m.ram
  {
    m.(cpu := m.cpu.(sp := Wrap8(m.cpu.sp - 1)))
  }

  /** The reset vector lies outside the RAM window, so on this bus reset always
      starts at address 0. */
  lemma ResetStartsAtZero(m: Machine)
    ensures Reset(m).cpu.pc == 0
  {
  }

  /** The state power-on leaves: SP 0xFD, PS 0x34, A = X = Y = 0 and RAM all 0xFF. */
  predicate PoweredOn(m: Machine) {
    && m.cpu.sp == 0xFD && m.cpu.ps == 0x34
    && m.cpu.a == 0 && m.cpu.x == 0 && m.cpu.y == 0
    && m.ram == MainBus.ResetRAM()
  }

  /** Power-on of the console: the CPU is built first (PS 0x34, A = X = Y = SP
      = 0, a zeroed cycle counter; two ticked writes to the APU/IO registers
      0x4017 and 0x4015; direct bus writes of 0 to `0x4000 & lastBits` for
      lastBits 0x00..0x13, which is always address 0; then Reset), and the bus
      then fills its RAM with 0xFF. `ram`, `pc` and `address` are the
      uninitialised contents the construction starts from. */
  method PowerOn(ram: MainBus.Ram, pc: Word, address: Word) returns (m: Machine)
    ensures PoweredOn(m)
    ensures m.cpu.pc == 0 && m.cpu.cycles == 9
  {
    m := Machine(Registers(pc, 0x00, 0, 0, 0, 0x34, 0, address), ram);
    m := Write(m, 0x4017, 0x00);
    m := Write(m, 0x4015, 0x00);
    var lastBits: nat := 0x0000;
    while lastBits <= 0x0013
      invariant lastBits <= 0x0014
      invariant m.cpu == Registers(pc, 0x00, 0, 0, 0, 0x34, 2, address)
    {
      var target := ((0x4000 as bv16) & (lastBits as bv16)) as int;
      m := m.(ram := MainBus.Write(m.ram, target, 0x00));
      lastBits := lastBits + 1;
    }
    m := Reset(m);
    m := m.(ram := MainBus.ResetRAM());
  }
}
