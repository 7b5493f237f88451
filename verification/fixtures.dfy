/** Concrete runs on a freshly powered-on core, each loaded at 0x0700 through
    the debugger, with the cycle counts, PCs, registers and flags the CPU test
    suite expects. */
module Fixtures {
  import opened Bytes
  import opened Wrappers
  import opened Cpu
  import MainBus
  import opened Instructions
  import opened Addressing
  import OpcodeTable
  import SR = StatusRegister
  import Execution
  import Debugger

  /** The machine a debugger run starts from: the program loaded at 0x0700
      whatever the start address, the cycle counter zeroed and PC at the start. */
  function Start(m: Machine, program: seq<Byte>, start: Word): (s: Machine)
    requires 0x0700 + |program| <= Debugger.LOAD_LIMIT
    ensures s.cpu == m.cpu.(cycles := 0, pc := start)
    ensures Loaded(s, program)
    ensures forall i :: 0 <= i < 0x0700 ==> Peek(s, i) == m.ram[i]
  {
    var loaded := Debugger.LoadInstrFromArray(m, program, 0x0700).value;
    loaded.(cpu := loaded.cpu.(cycles := 0, pc := start))
  }

  /** The machine right after an opcode fetch. */
  function Fetched(m: Machine): Machine {
    m.(cpu := m.cpu.(pc := Wrap16(m.cpu.pc + 1), cycles := m.cpu.cycles + 1))
  }

  /** Fetching a defined opcode runs its table body on the fetched machine. */
  lemma StepUnfold(m: Machine, h: Handler)
    requires Peek(m, m.cpu.pc) != 0xFF
    requires OpcodeTable.Decode(Peek(m, m.cpu.pc)).value.handler == h
    ensures Execution.StepInstruction(m) == Execution.Executed(Instructions.Execute(h, Fetched(m)))
  {
  }

  /** PC and the cycle counter advanced by the given amounts. */
  predicate Advanced(m: Machine, r: Machine, length: nat, cycles: nat) {
    r.cpu.pc == m.cpu.pc + length && r.cpu.cycles == m.cpu.cycles + cycles
  }

  /** A, X, Y, SP and PS as before. */
  predicate SameRegisters(m: Machine, r: Machine) {
    r.cpu.a == m.cpu.a && r.cpu.x == m.cpu.x && r.cpu.y == m.cpu.y && r.cpu.sp == m.cpu.sp && r.cpu.ps == m.cpu.ps
  }

  lemma StepNop(m: Machine)
    requires Peek(m, m.cpu.pc) == 0xEA && m.cpu.pc < 0xFFFF
    ensures var r := Execution.StepInstruction(m);
            r.Executed? && Advanced(m, r.m, 1, 2) && SameRegisters(m, r.m) && r.m.ram == m.ram
  {
    StepUnfold(m, Nop);
  }

  lemma StepLdaImmediate(m: Machine)
    requires Peek(m, m.cpu.pc) == 0xA9 && m.cpu.pc < 0xFFFE
    ensures var r := Execution.StepInstruction(m);
            var v := Peek(m, m.cpu.pc + 1);
            && r.Executed? && Advanced(m, r.m, 2, 2) && r.m.ram == m.ram
            && r.m.cpu.a == v && r.m.cpu.x == m.cpu.x && r.m.cpu.y == m.cpu.y
            && r.m.cpu.ps == UpdateZN(m.cpu.ps, v)
  {
    StepUnfold(m, Load(Instructions.A, Immediate));
  }

  lemma StepLdxImmediate(m: Machine)
    requires Peek(m, m.cpu.pc) == 0xA2 && m.cpu.pc < 0xFFFE
    ensures var r := Execution.StepInstruction(m);
            var v := Peek(m, m.cpu.pc + 1);
            && r.Executed? && Advanced(m, r.m, 2, 2) && r.m.ram == m.ram
            && r.m.cpu.x == v && r.m.cpu.a == m.cpu.a && r.m.cpu.y == m.cpu.y
  {
    StepUnfold(m, Load(Instructions.X, Immediate));
  }

  lemma StepLdxZeroPage(m: Machine)
    requires Peek(m, m.cpu.pc) == 0xA6 && m.cpu.pc < 0xFFFE
    ensures var r := Execution.StepInstruction(m);
            && r.Executed? && Advanced(m, r.m, 2, 3) && r.m.ram == m.ram
            && r.m.cpu.x == Peek(m, Peek(m, m.cpu.pc + 1))
  {
    StepUnfold(m, Load(Instructions.X, ZeroPage));
  }

  lemma StepAdcImmediate(m: Machine)
    requires Peek(m, m.cpu.pc) == 0x69 && m.cpu.pc < 0xFFFE
    ensures var r := Execution.StepInstruction(m);
            var alu := Instructions.AddWithCarry(m.cpu.a, Peek(m, m.cpu.pc + 1), m.cpu.ps);
            && r.Executed? && Advanced(m, r.m, 2, 2) && r.m.ram == m.ram
            && r.m.cpu.a == alu.a && r.m.cpu.ps == alu.ps
  {
    StepUnfold(m, Adc(Immediate));
  }

  /** The operand bytes seen after the fetch are the bytes following the opcode. */
  lemma FetchedOperand(m: Machine, i: nat)
    requires m.cpu.pc + 1 + i <= 0xFFFF
    ensures Operand(Fetched(m), i) == Peek(m, m.cpu.pc + 1 + i)
  {
  }

  lemma StepStaAbsolute(m: Machine)
    requires Peek(m, m.cpu.pc) == 0x8D && m.cpu.pc < 0xFFFD
    ensures var r := Execution.StepInstruction(m);
            var w := MakeWord(Peek(m, m.cpu.pc + 1), Peek(m, m.cpu.pc + 2));
            && r.Executed? && Advanced(m, r.m, 3, 4) && SameRegisters(m, r.m)
            && r.m.ram == MainBus.Write(m.ram, w, m.cpu.a)
  {
    var f := Fetched(m);
    var r := Execute(Sta(Absolute), f);
    var w := MakeWord(Peek(m, m.cpu.pc + 1), Peek(m, m.cpu.pc + 2));
    assert Advanced(m, r, 3, 4) && SameRegisters(m, r) && r.ram == MainBus.Write(m.ram, w, m.cpu.a) by {
      var k := Resolve(Absolute, f);
      assert k.m.cpu.address == w by {
        assert k == AbsoluteMode(f);
        FetchedOperand(m, 0);
        FetchedOperand(m, 1);
      }
      assert r == StaOp(Absolute, f);
    }
    StepUnfold(m, Sta(Absolute));
  }

  lemma StepStaZeroPageX(m: Machine)
    requires Peek(m, m.cpu.pc) == 0x95 && m.cpu.pc < 0xFFFE
    ensures var r := Execution.StepInstruction(m);
            var zp := Wrap8(Peek(m, m.cpu.pc + 1) + m.cpu.x);
            && r.Executed? && Advanced(m, r.m, 2, 4) && SameRegisters(m, r.m)
            && r.m.ram == MainBus.Write(m.ram, zp, m.cpu.a)
  {
    var f := Fetched(m);
    var r := Execute(Sta(ZeroPageX), f);
    var zp := Wrap8(Peek(m, m.cpu.pc + 1) + m.cpu.x);
    assert Advanced(m, r, 2, 4) && SameRegisters(m, r) && r.ram == MainBus.Write(m.ram, zp, m.cpu.a) by {
      var k := Resolve(ZeroPageX, f);
      assert k.m.cpu.address == zp by {
        assert k == ZeroPageIndexed(f, f.cpu.x);
        FetchedOperand(m, 0);
      }
      assert r == StaOp(ZeroPageX, f);
    }
    StepUnfold(m, Sta(ZeroPageX));
  }

  lemma StepStaZeroPage(m: Machine)
    requires Peek(m, m.cpu.pc) == 0x85 && m.cpu.pc < 0xFFFE
    ensures var r := Execution.StepInstruction(m);
            && r.Executed? && Advanced(m, r.m, 2, 3) && SameRegisters(m, r.m)
            && r.m.ram == MainBus.Write(m.ram, Peek(m, m.cpu.pc + 1), m.cpu.a)
  {
    var f := Fetched(m);
    var r := Execute(Sta(ZeroPage), f);
    var zp := Peek(m, m.cpu.pc + 1);
    assert Advanced(m, r, 2, 3) && SameRegisters(m, r) && r.ram == MainBus.Write(m.ram, zp, m.cpu.a) by {
      var k := Resolve(ZeroPage, f);
      assert k.m.cpu.address == zp by {
        FetchedOperand(m, 0);
      }
      assert r == StaOp(ZeroPage, f);
    }
    StepUnfold(m, Sta(ZeroPage));
  }

  lemma StepLdyImmediate(m: Machine)
    requires Peek(m, m.cpu.pc) == 0xA0 && m.cpu.pc < 0xFFFE
    ensures var r := Execution.StepInstruction(m);
            var v := Peek(m, m.cpu.pc + 1);
            && r.Executed? && Advanced(m, r.m, 2, 2) && r.m.ram == m.ram
            && r.m.cpu.y == v && r.m.cpu.a == m.cpu.a && r.m.cpu.x == m.cpu.x
  {
    StepUnfold(m, Load(Instructions.Y, Immediate));
  }

  lemma StepLdxAbsolute(m: Machine)
    requires Peek(m, m.cpu.pc) == 0xAE && m.cpu.pc < 0xFFFD
    ensures var r := Execution.StepInstruction(m);
            var w := MakeWord(Peek(m, m.cpu.pc + 1), Peek(m, m.cpu.pc + 2));
            && r.Executed? && Advanced(m, r.m, 3, 4) && r.m.ram == m.ram
            && r.m.cpu.x == Peek(m, w)
  {
    StepUnfold(m, Load(Instructions.X, Absolute));
    FetchedOperand(m, 0);
    FetchedOperand(m, 1);
  }

  /** STA (zp),Y: the pointer comes from zp and zp + 1 inside page zero, and the
      store costs six cycles whether or not adding Y crosses a page. */
  lemma StepStaIndirectIndexed(m: Machine)
    requires Peek(m, m.cpu.pc) == 0x91 && m.cpu.pc < 0xFFFE
    ensures var r := Execution.StepInstruction(m);
            var zp := Peek(m, m.cpu.pc + 1);
            var target := Wrap16(MakeWord(Peek(m, zp), Peek(m, Wrap8(zp + 1))) + m.cpu.y);
            && r.Executed? && Advanced(m, r.m, 2, 6) && SameRegisters(m, r.m)
            && r.m.ram == MainBus.Write(m.ram, target, m.cpu.a)
  {
    var f := Fetched(m);
    assert f.ram == m.ram && f.cpu.pc == m.cpu.pc + 1;
    assert Wrap16(f.cpu.pc + 1) == m.cpu.pc + 2;
    FetchedOperand(m, 0);
    StaIndirectIndexedEffect(f);
    assert Execute(Sta(IndirectIndexed), f) == StaOp(IndirectIndexed, f);
    StepUnfold(m, Sta(IndirectIndexed));
  }

  /** The (zp),Y store on the fetched machine: one operand byte, five ticks. */
  lemma StaIndirectIndexedEffect(f: Machine)
    ensures var r := StaOp(IndirectIndexed, f);
            var zp := Operand(f, 0);
            var target := Wrap16(MakeWord(Peek(f, zp), Peek(f, Wrap8(zp + 1))) + f.cpu.y);
            && r.cpu == f.cpu.(pc := Wrap16(f.cpu.pc + 1), cycles := f.cpu.cycles + 5, address := target)
            && r.ram == MainBus.Write(f.ram, target, f.cpu.a)
  {
    assert Resolve(IndirectIndexed, f) == IndirectIndexedMode(f);
  }

  lemma StepJmpIndirect(m: Machine)
    requires Peek(m, m.cpu.pc) == 0x6C && m.cpu.pc < 0xFFFD
    ensures var r := Execution.StepInstruction(m);
            var lo := Peek(m, m.cpu.pc + 1);
            var hi := Peek(m, m.cpu.pc + 2);
            && r.Executed?
            && r.m.cpu.pc == MakeWord(Peek(m, MakeWord(lo, hi)), Peek(m, MakeWord(Wrap8(lo + 1), hi)))
            && r.m.cpu.cycles == m.cpu.cycles + 5
  {
    StepUnfold(m, Jmp(Indirect));
    assert Operand(Fetched(m), 0) == Peek(m, m.cpu.pc + 1);
    assert Operand(Fetched(m), 1) == Peek(m, m.cpu.pc + 2);
  }

  /** One pass of the run loop: a defined opcode below the end address, with
      cycles to spare, executes and the loop carries on from the result. */
  lemma Next(m: Machine, end: nat) returns (n: Machine)
    requires m.cpu.pc < end && m.cpu.cycles < CYCLES_PER_FRAME
    requires Peek(m, m.cpu.pc) != 0xFF
    ensures Execution.StepInstruction(m) == Execution.Executed(n)
    ensures Execution.RunUntil(m, end) == Execution.RunUntil(n, end)
  {
    n := Execution.StepInstruction(m).m;
  }

  /** The loop stops as soon as PC reaches the end address. */
  lemma Done(m: Machine, end: nat)
    requires end <= m.cpu.pc
    ensures Execution.RunUntil(m, end) == Execution.Finished(m)
  {
  }

  /** The program is in RAM at 0x0700. */
  predicate Loaded(s: Machine, program: seq<Byte>)
    requires 0x0700 + |program| <= 0x1_0000
  {
    forall i :: 0 <= i < |program| ==> Peek(s, 0x0700 + i) == program[i]
  }

  /** NOP: two cycles, PC one past it, SP and PS as power-on left them. */
  lemma {:induction false} NopFixture(m: Machine)
    requires Execution.PoweredOn(m)
    ensures var r := Debugger.ExecuteInstrFromArray(m, [0xEA], 0x0700);
            && r.Success?
            && r.value.state.cycles == 2 && r.value.state.pc == 0x0701
            && r.value.state.sp == 0xFD && r.value.state.ps == 0x34
  {
    ExecuteFromArrayIsRun(m, [0xEA], 0x0700);
    var s := Start(m, [0xEA], 0x0700);
    var s1 := Next(s, 0x0701);
    StepNop(s);
    Done(s1, 0x0701);
  }

  const AdcOverflowProgram: seq<Byte> := [0xA9, 0x7F, 0x69, 0x01]

  /** LDA #$7F ; ADC #$01 sets V and leaves C clear. */
  lemma {:induction false} AdcOverflowFixture(m: Machine)
    requires Execution.PoweredOn(m)
    ensures var r := Debugger.ExecuteInstrFromArray(m, AdcOverflowProgram, 0x0700);
            && r.Success?
            && r.value.state.a == 0x80 && r.value.state.cycles == 4 && r.value.state.pc == 0x0704
            && SR.Test(r.value.state.ps, SR.C) == 0 && SR.Test(r.value.state.ps, SR.V) == 1
  {
    ExecuteFromArrayIsRun(m, AdcOverflowProgram, 0x0700);
    AdcOverflowRun(m);
  }

  lemma AdcOverflowRun(m: Machine)
    requires Execution.PoweredOn(m)
    ensures var r := Execution.RunUntil(Start(m, AdcOverflowProgram, 0x0700), 0x0704);
            && r.Finished?
            && r.m.cpu.a == 0x80 && r.m.cpu.cycles == 4 && r.m.cpu.pc == 0x0704
            && SR.Test(r.m.cpu.ps, SR.C) == 0 && SR.Test(r.m.cpu.ps, SR.V) == 1
  {
    var end := 0x0704;
    var s0 := Start(m, AdcOverflowProgram, 0x0700);
    assert Peek(s0, 0x0700) == 0xA9 && Peek(s0, 0x0701) == 0x7F;
    assert Peek(s0, 0x0702) == 0x69 && Peek(s0, 0x0703) == 0x01;
    var s1 := Next(s0, end);
    StepLdaImmediate(s0);
    assert s1.cpu.ps & SR.C == 0 by {
      assert s1.cpu.ps & !(SR.Z | SR.N) == 0x34 & !(SR.Z | SR.N);
    }
    var s2 := Next(s1, end);
    StepAdcImmediate(s1);
    AdcOverflowFlags(s1.cpu.ps);
    Done(s2, end);
  }

  /** 0x7F + 0x01 with carry clear: the result 0x80, C clear, V set. */
  lemma AdcOverflowFlags(ps: bv8)
    requires ps & SR.C == 0
    ensures var alu := Instructions.AddWithCarry(0x7F, 0x01, ps);
            alu.a == 0x80 && SR.Test(alu.ps, SR.C) == 0 && SR.Test(alu.ps, SR.V) == 1
  {
    assert SR.Test(ps, SR.C) == 0;
    assert Instructions.OverflowTerm(0x7F, 0x01, 0x80);
  }

  const AdcCarryProgram: seq<Byte> := [0xA9, 0xFE, 0x69, 0x05]

  /** LDA #$FE ; ADC #$05 wraps A to 0x03, sets C and leaves V clear. */
  lemma {:induction false} AdcCarryFixture(m: Machine)
    requires Execution.PoweredOn(m)
    ensures var r := Debugger.ExecuteInstrFromArray(m, AdcCarryProgram, 0x0700);
            && r.Success?
            && r.value.state.a == 0x03 && r.value.state.cycles == 4 && r.value.state.pc == 0x0704
            && SR.Test(r.value.state.ps, SR.C) == 1 && SR.Test(r.value.state.ps, SR.V) == 0
  {
    ExecuteFromArrayIsRun(m, AdcCarryProgram, 0x0700);
    AdcCarryRun(m);
  }

  lemma AdcCarryRun(m: Machine)
    requires Execution.PoweredOn(m)
    ensures var r := Execution.RunUntil(Start(m, AdcCarryProgram, 0x0700), 0x0704);
            && r.Finished?
            && r.m.cpu.a == 0x03 && r.m.cpu.cycles == 4 && r.m.cpu.pc == 0x0704
            && SR.Test(r.m.cpu.ps, SR.C) == 1 && SR.Test(r.m.cpu.ps, SR.V) == 0
  {
    var end := 0x0704;
    var s0 := Start(m, AdcCarryProgram, 0x0700);
    assert Peek(s0, 0x0700) == 0xA9 && Peek(s0, 0x0701) == 0xFE;
    assert Peek(s0, 0x0702) == 0x69 && Peek(s0, 0x0703) == 0x05;
    var s1 := Next(s0, end);
    StepLdaImmediate(s0);
    assert s1.cpu.ps & SR.C == 0 by {
      assert s1.cpu.ps & !(SR.Z | SR.N) == 0x34 & !(SR.Z | SR.N);
    }
    var s2 := Next(s1, end);
    StepAdcImmediate(s1);
    AdcCarryFlags(s1.cpu.ps);
    Done(s2, end);
  }

  /** 0xFE + 0x05 with carry clear: the result 0x03, C set, V clear. */
  lemma AdcCarryFlags(ps: bv8)
    requires ps & SR.C == 0
    ensures var alu := Instructions.AddWithCarry(0xFE, 0x05, ps);
            alu.a == 0x03 && SR.Test(alu.ps, SR.C) == 1 && SR.Test(alu.ps, SR.V) == 0
  {
    assert SR.Test(ps, SR.C) == 0;
    assert !Instructions.OverflowTerm(0xFE, 0x05, 0x03);
  }

  /** LDA #imm ; STA abs at PC: A holds the immediate, the RAM the store, in six cycles. */
  lemma LoadStorePair(s: Machine, end: nat) returns (s2: Machine)
    requires Peek(s, s.cpu.pc) == 0xA9 && Peek(s, s.cpu.pc + 2) == 0x8D
    requires s.cpu.pc + 5 <= end && s.cpu.pc < 0xFFF0 && s.cpu.cycles + 2 < CYCLES_PER_FRAME
    ensures var v := Peek(s, s.cpu.pc + 1);
            var w := MakeWord(Peek(s, s.cpu.pc + 3), Peek(s, s.cpu.pc + 4));
            && s2.cpu.pc == s.cpu.pc + 5 && s2.cpu.cycles == s.cpu.cycles + 6 && s2.cpu.a == v
            && s2.ram == MainBus.Write(s.ram, w, v)
            && Execution.RunUntil(s, end) == Execution.RunUntil(s2, end)
  {
    var s1 := Next(s, end);
    StepLdaImmediate(s);
    s2 := Next(s1, end);
    StepStaAbsolute(s1);
  }

  const JmpWrapProgram: seq<Byte> := [0xA9, 0xEF, 0x8D, 0xFF, 0x03, 0xA9, 0x07, 0x8D, 0x00, 0x03, 0x6C, 0xFF, 0x03]

  /** LDA #$EF ; STA $03FF ; LDA #$07 ; STA $0300 ; JMP ($03FF): the pointer's
      high byte comes from 0x0300, not 0x0400, so the jump lands on 0x07EF
      after 17 cycles. */
  lemma {:induction false} JmpIndirectWrapFixture(m: Machine)
    requires Execution.PoweredOn(m)
    ensures var r := Debugger.ExecuteInstrFromArray(m, JmpWrapProgram, 0x0700);
            && r.Success?
            && r.value.state.cycles == 17 && r.value.state.pc == 0x07EF
  {
    ExecuteFromArrayIsRun(m, JmpWrapProgram, 0x0700);
    var s0 := Start(m, JmpWrapProgram, 0x0700);
    var s2 := JmpWrapFirstStore(s0);
    var s4 := JmpWrapSecondStore(s2);
    JmpWrapJump(s4);
  }

  /** LDA #$EF ; STA $03FF. */
  lemma JmpWrapFirstStore(s0: Machine) returns (s2: Machine)
    requires s0.cpu.pc == 0x0700 && s0.cpu.cycles == 0 && Loaded(s0, JmpWrapProgram)
    ensures Execution.RunUntil(s0, 0x070D) == Execution.RunUntil(s2, 0x070D)
    ensures s2.cpu.pc == 0x0705 && s2.cpu.cycles == 6 && Loaded(s2, JmpWrapProgram)
    ensures Peek(s2, 0x03FF) == 0xEF
  {
    assert Peek(s0, 0x0700) == 0xA9 && Peek(s0, 0x0701) == 0xEF && Peek(s0, 0x0702) == 0x8D by {
      assert JmpWrapProgram[0] == 0xA9 && JmpWrapProgram[1] == 0xEF && JmpWrapProgram[2] == 0x8D;
    }
    assert Peek(s0, 0x0703) == 0xFF && Peek(s0, 0x0704) == 0x03 by {
      assert JmpWrapProgram[3] == 0xFF && JmpWrapProgram[4] == 0x03;
    }
    s2 := LoadStorePair(s0, 0x070D);
    assert MakeWord(0xFF, 0x03) == 0x03FF;
    WritePreservesProgram(s0, s2, 0x03FF, 0xEF, JmpWrapProgram);
  }

  /** LDA #$07 ; STA $0300, which leaves 0x03FF alone. */
  lemma JmpWrapSecondStore(s2: Machine) returns (s4: Machine)
    requires s2.cpu.pc == 0x0705 && s2.cpu.cycles == 6 && Loaded(s2, JmpWrapProgram)
    requires Peek(s2, 0x03FF) == 0xEF
    ensures Execution.RunUntil(s2, 0x070D) == Execution.RunUntil(s4, 0x070D)
    ensures s4.cpu.pc == 0x070A && s4.cpu.cycles == 12 && Loaded(s4, JmpWrapProgram)
    ensures Peek(s4, 0x03FF) == 0xEF && Peek(s4, 0x0300) == 0x07
  {
    assert Peek(s2, 0x0705) == 0xA9 && Peek(s2, 0x0706) == 0x07 && Peek(s2, 0x0707) == 0x8D by {
      assert JmpWrapProgram[5] == 0xA9 && JmpWrapProgram[6] == 0x07 && JmpWrapProgram[7] == 0x8D;
    }
    assert Peek(s2, 0x0708) == 0x00 && Peek(s2, 0x0709) == 0x03 by {
      assert JmpWrapProgram[8] == 0x00 && JmpWrapProgram[9] == 0x03;
    }
    s4 := LoadStorePair(s2, 0x070D);
    assert MakeWord(0x00, 0x03) == 0x0300;
    WritePreservesProgram(s2, s4, 0x0300, 0x07, JmpWrapProgram);
    MainBus.WriteThenRead(s2.ram, 0x0300, 0x07, 0x03FF);
  }

  /** A store below 0x0700 leaves the program in place and reads back. */
  lemma WritePreservesProgram(s: Machine, t: Machine, address: Word, data: Byte, program: seq<Byte>)
    requires 0x0700 + |program| <= 0x0800 && address < 0x0700
    requires Loaded(s, program) && t.ram == MainBus.Write(s.ram, address, data)
    ensures Loaded(t, program) && Peek(t, address) == data
  {
    forall i | 0 <= i < |program|
      ensures Peek(t, 0x0700 + i) == program[i]
    {
      MainBus.WriteThenRead(s.ram, address, data, 0x0700 + i);
    }
  }

  /** The indirect jump through 0x03FF reads its high byte from 0x0300. */
  lemma JmpWrapJump(s4: Machine)
    requires s4.cpu.pc == 0x070A && s4.cpu.cycles == 12 && Loaded(s4, JmpWrapProgram)
    requires Peek(s4, 0x03FF) == 0xEF && Peek(s4, 0x0300) == 0x07
    ensures var r := Execution.RunUntil(s4, 0x070D);
            r.Finished? && r.m.cpu.pc == 0x07EF && r.m.cpu.cycles == 17
  {
    assert Peek(s4, 0x070A) == 0x6C && Peek(s4, 0x070B) == 0xFF && Peek(s4, 0x070C) == 0x03 by {
      assert JmpWrapProgram[10] == 0x6C && JmpWrapProgram[11] == 0xFF && JmpWrapProgram[12] == 0x03;
    }
    var s5 := Next(s4, 0x070D);
    StepJmpIndirect(s4);
    assert MakeWord(0xFF, 0x03) == 0x03FF;
    assert MakeWord(Wrap8(0xFF + 1), 0x03) == 0x0300;
    Done(s5, 0x070D);
  }

  const ZeroPageXProgram: seq<Byte> := [0xA2, 0x03, 0xA9, 0xEF, 0x95, 0xFE, 0xA6, 0x01]

  /** LDX #$03 ; LDA #$EF ; STA $FE,X ; LDX $01: the indexed store wraps inside
      page zero to 0x0001, where the final load finds it, after 11 cycles. */
  lemma {:induction false} StaZeroPageXFixture(m: Machine)
    requires Execution.PoweredOn(m)
    ensures var r := Debugger.ExecuteInstrFromArray(m, ZeroPageXProgram, 0x0700);
            && r.Success?
            && r.value.state.cycles == 11 && r.value.state.pc == 0x0708 && r.value.state.x == 0xEF
  {
    ExecuteFromArrayIsRun(m, ZeroPageXProgram, 0x0700);
    var s0 := Start(m, ZeroPageXProgram, 0x0700);
    var s2 := ZeroPageXLoads(s0);
    ZeroPageXStoreLoad(s2);
  }

  /** LDX #$03 ; LDA #$EF. */
  lemma ZeroPageXLoads(s0: Machine) returns (s2: Machine)
    requires s0.cpu.pc == 0x0700 && s0.cpu.cycles == 0 && Loaded(s0, ZeroPageXProgram)
    ensures Execution.RunUntil(s0, 0x0708) == Execution.RunUntil(s2, 0x0708)
    ensures s2.cpu.a == 0xEF && s2.cpu.x == 0x03 && s2.cpu.pc == 0x0704 && s2.cpu.cycles == 4
    ensures Peek(s2, 0x0704) == 0x95 && Peek(s2, 0x0705) == 0xFE
    ensures Peek(s2, 0x0706) == 0xA6 && Peek(s2, 0x0707) == 0x01
  {
    assert ZeroPageXProgram[0] == 0xA2 && ZeroPageXProgram[1] == 0x03;
    assert ZeroPageXProgram[2] == 0xA9 && ZeroPageXProgram[3] == 0xEF;
    assert ZeroPageXProgram[4] == 0x95 && ZeroPageXProgram[5] == 0xFE;
    assert ZeroPageXProgram[6] == 0xA6 && ZeroPageXProgram[7] == 0x01;
    var s1 := Next(s0, 0x0708);
    StepLdxImmediate(s0);
    s2 := Next(s1, 0x0708);
    StepLdaImmediate(s1);
  }

  /** STA $FE,X ; LDX $01 with X = 3: the store lands on 0x0001. */
  lemma ZeroPageXStoreLoad(s2: Machine)
    requires s2.cpu.a == 0xEF && s2.cpu.x == 0x03 && s2.cpu.pc == 0x0704 && s2.cpu.cycles == 4
    requires Peek(s2, 0x0704) == 0x95 && Peek(s2, 0x0705) == 0xFE
    requires Peek(s2, 0x0706) == 0xA6 && Peek(s2, 0x0707) == 0x01
    ensures var r := Execution.RunUntil(s2, 0x0708);
            r.Finished? && r.m.cpu.cycles == 11 && r.m.cpu.pc == 0x0708 && r.m.cpu.x == 0xEF
  {
    var s3 := Next(s2, 0x0708);
    assert s3.cpu.pc == 0x0706 && s3.cpu.cycles == 8 && s3.ram == MainBus.Write(s2.ram, 0x0001, 0xEF) by {
      StepStaZeroPageX(s2);
      var zp := Wrap8(Peek(s2, s2.cpu.pc + 1) + s2.cpu.x);
      assert Peek(s2, s2.cpu.pc + 1) == 0xFE;
      assert zp == 0x0001;
      assert s3.ram == MainBus.Write(s2.ram, zp, s2.cpu.a);
    }
    assert Peek(s3, 0x0706) == 0xA6 && Peek(s3, 0x0707) == 0x01 && Peek(s3, 0x0001) == 0xEF by {
      MainBus.WriteThenRead(s2.ram, 0x0001, 0xEF, 0x0706);
      MainBus.WriteThenRead(s2.ram, 0x0001, 0xEF, 0x0707);
    }
    var s4 := Next(s3, 0x0708);
    StepLdxZeroPage(s3);
    Done(s4, 0x0708);
  }

  /** The start address does not move the load: asked to run a NOP from 0x0600,
      the debugger still loads it at 0x0700, so the run fetches the power-on
      filler 0xFF at 0x0600 and stops on the empty table slot. */
  lemma LoadAddressIgnoresStart(m: Machine)
    requires Execution.PoweredOn(m)
    ensures Debugger.ExecuteInstrFromArray(m, [0xEA], 0x0600) == Failure(Debugger.NullHandler)
  {
    ExecuteFromArrayIsRun(m, [0xEA], 0x0600);
    var s := Start(m, [0xEA], 0x0600);
    assert Peek(s, 0x0600) == 0xFF by {
      assert Peek(s, 0x0600) == m.ram[0x0600];
    }
    assert Execution.StepInstruction(s).NullHandler?;
  }

  const IndirectIndexedProgram: seq<Byte> :=
    [0xA9, 0x00, 0x85, 0x3F, 0xA9, 0x03, 0x85, 0x40, 0xA9, 0xEF, 0xA0, 0x20, 0x91, 0x3F, 0xAE, 0x20, 0x03]

  /** LDA #$00 ; STA $3F ; LDA #$03 ; STA $40 ; LDA #$EF ; LDY #$20 ;
      STA ($3F),Y ; LDX $0320: the pointer 0x0300 plus Y stores A at 0x0320,
      where the final load finds it, after 24 cycles. */
  lemma {:induction false} StaIndirectIndexedFixture(m: Machine)
    requires Execution.PoweredOn(m)
    ensures var r := Debugger.ExecuteInstrFromArray(m, IndirectIndexedProgram, 0x0700);
            && r.Success?
            && r.value.state.cycles == 24 && r.value.state.pc == 0x0711 && r.value.state.x == 0xEF
  {
    ExecuteFromArrayIsRun(m, IndirectIndexedProgram, 0x0700);
    var s0 := Start(m, IndirectIndexedProgram, 0x0700);
    var s2 := PointerLowStore(s0);
    var s4 := PointerHighStore(s2);
    var s6 := IndirectIndexedLoads(s4);
    IndirectIndexedStoreLoad(s6);
  }

  /** LDA #imm ; STA zp at PC: A holds the immediate, the RAM the store, in five cycles. */
  lemma ZeroPageStorePair(s: Machine, end: nat) returns (s2: Machine)
    requires Peek(s, s.cpu.pc) == 0xA9 && Peek(s, s.cpu.pc + 2) == 0x85
    requires s.cpu.pc + 4 <= end && s.cpu.pc < 0xFFF0 && s.cpu.cycles + 2 < CYCLES_PER_FRAME
    ensures var v := Peek(s, s.cpu.pc + 1);
            && s2.cpu.pc == s.cpu.pc + 4 && s2.cpu.cycles == s.cpu.cycles + 5 && s2.cpu.a == v
            && s2.ram == MainBus.Write(s.ram, Peek(s, s.cpu.pc + 3), v)
            && Execution.RunUntil(s, end) == Execution.RunUntil(s2, end)
  {
    var s1 := Next(s, end);
    StepLdaImmediate(s);
    s2 := Next(s1, end);
    StepStaZeroPage(s1);
  }

  /** LDA #$00 ; STA $3F. */
  lemma PointerLowStore(s0: Machine) returns (s2: Machine)
    requires s0.cpu.pc == 0x0700 && s0.cpu.cycles == 0 && Loaded(s0, IndirectIndexedProgram)
    ensures Execution.RunUntil(s0, 0x0711) == Execution.RunUntil(s2, 0x0711)
    ensures s2.cpu.pc == 0x0704 && s2.cpu.cycles == 5 && Loaded(s2, IndirectIndexedProgram)
    ensures Peek(s2, 0x003F) == 0x00
  {
    assert Peek(s0, 0x0700) == 0xA9 && Peek(s0, 0x0701) == 0x00 by {
      assert IndirectIndexedProgram[0] == 0xA9 && IndirectIndexedProgram[1] == 0x00;
    }
    assert Peek(s0, 0x0702) == 0x85 && Peek(s0, 0x0703) == 0x3F by {
      assert IndirectIndexedProgram[2] == 0x85 && IndirectIndexedProgram[3] == 0x3F;
    }
    s2 := ZeroPageStorePair(s0, 0x0711);
    WritePreservesProgram(s0, s2, 0x003F, 0x00, IndirectIndexedProgram);
  }

  /** LDA #$03 ; STA $40, which leaves 0x003F alone. */
  lemma PointerHighStore(s2: Machine) returns (s4: Machine)
    requires s2.cpu.pc == 0x0704 && s2.cpu.cycles == 5 && Loaded(s2, IndirectIndexedProgram)
    requires Peek(s2, 0x003F) == 0x00
    ensures Execution.RunUntil(s2, 0x0711) == Execution.RunUntil(s4, 0x0711)
    ensures s4.cpu.pc == 0x0708 && s4.cpu.cycles == 10 && Loaded(s4, IndirectIndexedProgram)
    ensures Peek(s4, 0x003F) == 0x00 && Peek(s4, 0x0040) == 0x03
  {
    assert Peek(s2, 0x0704) == 0xA9 && Peek(s2, 0x0705) == 0x03 by {
      assert IndirectIndexedProgram[4] == 0xA9 && IndirectIndexedProgram[5] == 0x03;
    }
    assert Peek(s2, 0x0706) == 0x85 && Peek(s2, 0x0707) == 0x40 by {
      assert IndirectIndexedProgram[6] == 0x85 && IndirectIndexedProgram[7] == 0x40;
    }
    s4 := ZeroPageStorePair(s2, 0x0711);
    WritePreservesProgram(s2, s4, 0x0040, 0x03, IndirectIndexedProgram);
    MainBus.WriteThenRead(s2.ram, 0x0040, 0x03, 0x003F);
  }

  /** LDA #$EF ; LDY #$20, which leave the RAM alone. */
  lemma IndirectIndexedLoads(s4: Machine) returns (s6: Machine)
    requires s4.cpu.pc == 0x0708 && s4.cpu.cycles == 10 && Loaded(s4, IndirectIndexedProgram)
    requires Peek(s4, 0x003F) == 0x00 && Peek(s4, 0x0040) == 0x03
    ensures Execution.RunUntil(s4, 0x0711) == Execution.RunUntil(s6, 0x0711)
    ensures s6.cpu.pc == 0x070C && s6.cpu.cycles == 14 && s6.ram == s4.ram
    ensures s6.cpu.a == 0xEF && s6.cpu.y == 0x20
  {
    assert Peek(s4, 0x0708) == 0xA9 && Peek(s4, 0x0709) == 0xEF by {
      assert IndirectIndexedProgram[8] == 0xA9 && IndirectIndexedProgram[9] == 0xEF;
    }
    assert Peek(s4, 0x070A) == 0xA0 && Peek(s4, 0x070B) == 0x20 by {
      assert IndirectIndexedProgram[10] == 0xA0 && IndirectIndexedProgram[11] == 0x20;
    }
    var s5 := Next(s4, 0x0711);
    StepLdaImmediate(s4);
    s6 := Next(s5, 0x0711);
    StepLdyImmediate(s5);
  }

  /** STA ($3F),Y ; LDX $0320 with the pointer 0x0300 and Y = 0x20. */
  lemma IndirectIndexedStoreLoad(s6: Machine)
    requires s6.cpu.pc == 0x070C && s6.cpu.cycles == 14 && Loaded(s6, IndirectIndexedProgram)
    requires Peek(s6, 0x003F) == 0x00 && Peek(s6, 0x0040) == 0x03
    requires s6.cpu.a == 0xEF && s6.cpu.y == 0x20
    ensures var r := Execution.RunUntil(s6, 0x0711);
            r.Finished? && r.m.cpu.cycles == 24 && r.m.cpu.pc == 0x0711 && r.m.cpu.x == 0xEF
  {
    assert Peek(s6, 0x070C) == 0x91 && Peek(s6, 0x070D) == 0x3F by {
      assert IndirectIndexedProgram[12] == 0x91 && IndirectIndexedProgram[13] == 0x3F;
    }
    assert Peek(s6, 0x070E) == 0xAE && Peek(s6, 0x070F) == 0x20 && Peek(s6, 0x0710) == 0x03 by {
      assert IndirectIndexedProgram[14] == 0xAE && IndirectIndexedProgram[15] == 0x20;
      assert IndirectIndexedProgram[16] == 0x03;
    }
    var s7 := Next(s6, 0x0711);
    assert s7.cpu.pc == 0x070E && s7.cpu.cycles == 20 && s7.ram == MainBus.Write(s6.ram, 0x0320, 0xEF) by {
      StepStaIndirectIndexed(s6);
      assert Wrap8(0x3F + 1) == 0x40;
      assert Wrap16(MakeWord(0x00, 0x03) + 0x20) == 0x0320;
    }
    assert Peek(s7, 0x070E) == 0xAE && Peek(s7, 0x070F) == 0x20 && Peek(s7, 0x0710) == 0x03
           && Peek(s7, 0x0320) == 0xEF by {
      MainBus.WriteThenRead(s6.ram, 0x0320, 0xEF, 0x070E);
      MainBus.WriteThenRead(s6.ram, 0x0320, 0xEF, 0x070F);
      MainBus.WriteThenRead(s6.ram, 0x0320, 0xEF, 0x0710);
    }
    var s8 := Next(s7, 0x0711);
    StepLdxAbsolute(s7);
    assert MakeWord(0x20, 0x03) == 0x0320;
    Done(s8, 0x0711);
  }

  /** A debugger run is the run loop on the machine with the program at 0x0700,
      PC at the start and the counter zeroed, bounded by start + length. */
  lemma ExecuteFromArrayIsRun(m: Machine, program: seq<Byte>, start: Word)
    requires 0x0700 + |program| <= Debugger.LOAD_LIMIT
    ensures Debugger.ExecuteInstrFromArray(m, program, start)
            == match Execution.RunUntil(Start(m, program, start), start + |program|)
               case Finished(d) => Success(Debugger.Session(d, Debugger.GetCpuState(d)))
               case Stopped(_) => Failure(Debugger.NullHandler)
  {
    var loaded := Debugger.LoadInstrFromArray(m, program, 0x0700).value;
    assert Execution.ExecuteInstrFromRAM(loaded, start, |program|)
           == Execution.RunUntil(Start(m, program, start), start + |program|);
  }
}
