/** The debugger's view of the core: loading a program straight into RAM,
    running it, and a snapshot of the CPU registers. */
module Debugger {
  import opened Bytes
  import opened Wrappers
  import opened Cpu
  import MainBus
  import Execution

  /** Where programs are loaded when no location is given. */
  const DEFAULT_START: Word := 0x0700

  /** The largest value start + length may take; the check is `> 0x7FF`, so
      the last RAM byte (0x07FF) can never be loaded. */
  const LOAD_LIMIT: nat := 0x7FF

  /** Register snapshot: SP, A, X, Y, PS, PC and the cycle counter. */
  datatype CpuState = CpuState(sp: Byte, a: Byte, x: Byte, y: Byte, ps: bv8, pc: Word, cycles: nat)

  datatype DebugError =
    | OutOfRange   // the program would not fit below the load limit
    | NullHandler  // the run fetched opcode 0xFF, whose table slot is empty

  /** A snapshot of the registers; RAM and the scratch address are not part of it. */
  function GetCpuState(m: Machine): (s: CpuState)
    ensures s.sp == m.cpu.sp && s.a == m.cpu.a && s.x == m.cpu.x && s.y == m.cpu.y
    ensures s.ps == m.cpu.ps && s.pc == m.cpu.pc && s.cycles == m.cpu.cycles
  {
    CpuState(m.cpu.sp, m.cpu.a, m.cpu.x, m.cpu.y, m.cpu.ps, m.cpu.pc, m.cpu.cycles)
  }

  /** Two machines with the same registers give the same snapshot, whatever
      their RAM or scratch address. */
  lemma SnapshotSeesOnlyRegisters(m: Machine, n: Machine)
    requires m.cpu.(address := 0) == n.cpu.(address := 0)
    ensures GetCpuState(m) == GetCpuState(n)
  {
    assert m.cpu.pc == n.cpu.pc;
  }

  /** Copies the program into RAM from `start` on, without ticking; rejects a
      program whose end would pass the load limit. */
  function LoadInstrFromArray(m: Machine, program: seq<Byte>, start: Word): (r: Result<Machine, DebugError>)
    ensures r.Failure? <==> start + |program| > LOAD_LIMIT
    ensures r.Failure? ==> r.error == OutOfRange
    ensures r.Success? ==> r.value.cpu == m.cpu
    ensures r.Success? ==> forall i :: 0 <= i < MainBus.RAM_SIZE ==>
              r.value.ram[i] == if start <= i < start + |program| then program[i - start] else m.ram[i]
  {
    if start + |program| > LOAD_LIMIT then Failure(OutOfRange)
    else Success(m.(ram := m.ram[..start] + program + m.ram[start + |program|..]))
  }

  /** Every loaded byte reads back through the bus at its address. */
  lemma {:induction false} LoadedProgramReadsBack(m: Machine, program: seq<Byte>, start: Word, i: nat)
    requires start + |program| <= LOAD_LIMIT && i < |program|
    ensures LoadInstrFromArray(m, program, start).Success?
    ensures MainBus.Read(LoadInstrFromArray(m, program, start).value.ram, start + i) == program[i]
  {
    var r := LoadInstrFromArray(m, program, start).value;
    assert r.ram[start + i] == program[i];
  }

  /** A program ending exactly at the top of RAM fits, yet is rejected. */
  lemma LastRamByteCannotBeLoaded(m: Machine, program: seq<Byte>)
    requires 1 <= |program| <= MainBus.RAM_SIZE
    ensures MainBus.RAM_SIZE - |program| + |program| - 1 == MainBus.RAM_LAST
    ensures LoadInstrFromArray(m, program, MainBus.RAM_SIZE - |program|).Failure?
  {
  }

  /** The debugger session after a run: the machine and the snapshot returned. */
  datatype Session = Session(m: Machine, state: CpuState)

  /** Loads the program at the default location, whatever `start` is, then runs
      `|program|` bytes' worth from `start` and returns the snapshot. */
  function ExecuteInstrFromArray(m: Machine, program: seq<Byte>, start: Word): (r: Result<Session, DebugError>)
    ensures r.Failure? && r.error == OutOfRange <==> DEFAULT_START + |program| > LOAD_LIMIT
    ensures r.Success? ==> r.value.state == GetCpuState(r.value.m)
    ensures r.Success? ==> r.value.m.cpu.cycles <= Cpu.CYCLES_PER_FRAME + 5
    ensures r.Success? ==> !(r.value.m.cpu.pc < start + |program| && r.value.m.cpu.cycles < Cpu.CYCLES_PER_FRAME)
  {
    match LoadInstrFromArray(m, program, DEFAULT_START)
    case Failure(e) => Failure(e)
    case Success(loaded) =>
      match Execution.ExecuteInstrFromRAM(loaded, start, |program|)
      case Stopped(_) => Failure(NullHandler)
      case Finished(done) => Success(Session(done, GetCpuState(done)))
  }
}
