/** The 256-slot opcode table: for every opcode byte the instruction body it
    dispatches to, its mnemonic, its length in bytes and its base cycle count
    (the opcode fetch included). The initialiser lists 0x00-0xFE only, so slot
    0xFF holds no handler. */
module OpcodeTable {
  import opened Bytes
  import opened Wrappers
  import opened Addressing
  import opened Instructions

  /** One table row. */
  datatype Entry = Entry(handler: Handler, mnemonic: string, bytes: nat, cycles: nat)

  /** The row of every opcode that is not implemented. */
  const IllegalEntry: Entry := Entry(Illegal, "ILL", 1, 2)

  /** The table row for an opcode; `None` for the slot the initialiser leaves empty. */
  function Decode(opcode: Byte): (r: Option<Entry>)
    ensures r.None? <==> opcode == 0xFF
  {
    match opcode
    case 0x18 => Some(Entry(Clc, "CLC", 1, 2))
    case 0x38 => Some(Entry(Sec, "SEC", 1, 2))
    case 0x4C => Some(Entry(Jmp(Absolute), "JMP", 3, 3))
    case 0x61 => Some(Entry(Adc(IndexedIndirect), "ADC", 2, 6))
    case 0x65 => Some(Entry(Adc(ZeroPage), "ADC", 2, 3))
    case 0x69 => Some(Entry(Adc(Immediate), "ADC", 2, 2))
    case 0x6C => Some(Entry(Jmp(Indirect), "JMP", 3, 5))
    case 0x6D => Some(Entry(Adc(Absolute), "ADC", 3, 4))
    case 0x71 => Some(Entry(Adc(IndirectIndexed), "ADC", 2, 5))
    case 0x75 => Some(Entry(Adc(ZeroPageX), "ADC", 2, 4))
    case 0x79 => Some(Entry(Adc(AbsoluteY), "ADC", 3, 4))
    case 0x7D => Some(Entry(Adc(AbsoluteX), "ADC", 3, 4))
    case 0x81 => Some(Entry(Sta(IndexedIndirect), "STA", 2, 6))
    case 0x85 => Some(Entry(Sta(ZeroPage), "STA", 2, 3))
    case 0x8D => Some(Entry(Sta(Absolute), "STA", 3, 4))
    case 0x91 => Some(Entry(Sta(IndirectIndexed), "STA", 2, 6))
    case 0x95 => Some(Entry(Sta(ZeroPageX), "STA", 2, 4))
    case 0x99 => Some(Entry(Sta(AbsoluteY), "STA", 3, 5))
    case 0x9D => Some(Entry(Sta(AbsoluteX), "STA", 3, 5))
    case 0xA0 => Some(Entry(Load(Y, Immediate), "LDY", 2, 2))
    case 0xA1 => Some(Entry(Load(A, IndexedIndirect), "LDA", 2, 6))
    case 0xA2 => Some(Entry(Load(X, Immediate), "LDX", 2, 2))
    case 0xA4 => Some(Entry(Load(Y, ZeroPage), "LDY", 2, 3))
    case 0xA5 => Some(Entry(Load(A, ZeroPage), "LDA", 2, 3))
    case 0xA6 => Some(Entry(Load(X, ZeroPage), "LDX", 2, 3))
    case 0xA9 => Some(Entry(Load(A, Immediate), "LDA", 2, 2))
    case 0xAC => Some(Entry(Load(Y, Absolute), "LDY", 3, 4))
    case 0xAD => Some(Entry(Load(A, Absolute), "LDA", 3, 4))
    case 0xAE => Some(Entry(Load(X, Absolute), "LDX", 3, 4))
    case 0xB1 => Some(Entry(Load(A, IndirectIndexed), "LDA", 2, 5))
    case 0xB4 => Some(Entry(Load(Y, ZeroPageX), "LDY", 2, 4))
    case 0xB5 => Some(Entry(Load(A, ZeroPageX), "LDA", 2, 4))
    case 0xB6 => Some(Entry(Load(X, ZeroPageY), "LDX", 2, 4))
    case 0xB9 => Some(Entry(Load(A, AbsoluteY), "LDA", 3, 4))
    case 0xBC => Some(Entry(Load(Y, AbsoluteX), "LDY", 3, 4))
    case 0xBD => Some(Entry(Load(A, AbsoluteX), "LDA", 3, 4))
    case 0xBE => Some(Entry(Load(X, AbsoluteY), "LDX", 3, 4))
    case 0xEA => Some(Entry(Nop, "NOP", 1, 2))
    case 0xFF => None
    case _ => Some(IllegalEntry)
  }

  /** The table as a 256-slot sequence indexed by opcode. */
  const Table: seq<Option<Entry>> := seq(0x100, (i: int) requires 0 <= i < 0x100 => Decode(i))

  /** Indexing the table by any opcode byte is in bounds and yields that opcode's row. */
  lemma TableCoversEveryOpcode(opcode: Byte)
    ensures |Table| == 0x100
    ensures opcode < |Table| && Table[opcode] == Decode(opcode)
  {
  }

  /** The mnemonic of a body. */
  function HandlerMnemonic(h: Handler): string {
    match h
    case Illegal => "ILL"
    case Adc(_) => "ADC"
    case Clc => "CLC"
    case Jmp(_) => "JMP"
    case Load(A, _) => "LDA"
    case Load(X, _) => "LDX"
    case Load(Y, _) => "LDY"
    case Nop => "NOP"
    case Sec => "SEC"
    case Sta(_) => "STA"
  }

  /** A row agrees with the body it dispatches to: the cycle column is the
      fetch plus the body's base ticks, the length column is the opcode plus
      the mode's operand bytes, the mnemonic names the body, and the mode is
      not the relative one. */
  predicate RowAgrees(e: Entry) {
    && e.cycles == 1 + BaseTicks(e.handler)
    && e.bytes == 1 + OperandLength(HandlerMode(e.handler))
    && e.mnemonic == HandlerMnemonic(e.handler)
    && HandlerMode(e.handler) != Relative
  }

  /** Every row of the table agrees with its body. */
  lemma {:induction false} RowsMatchBodies(opcode: Byte)
    requires opcode != 0xFF
    ensures var e := Decode(opcode).value;
            && e.cycles == 1 + BaseTicks(e.handler)
            && e.bytes == 1 + OperandLength(HandlerMode(e.handler))
            && e.mnemonic == HandlerMnemonic(e.handler)
            && HandlerMode(e.handler) != Relative
  {
    if opcode < 0x80 {
      RowsAgreeBelow80(opcode);
    } else if opcode < 0xA0 {
      RowsAgree80To9F(opcode);
    } else if opcode < 0xB0 {
      RowsAgreeA0ToAF(opcode);
    } else if opcode < 0xB8 {
      RowsAgreeB0ToB7(opcode);
    } else if opcode < 0xC0 {
      RowsAgreeB8ToBF(opcode);
    } else {
      RowsAgreeFromC0(opcode);
    }
  }

  lemma {:induction false} RowsAgreeBelow80(opcode: Byte)
    requires opcode < 0x80
    ensures RowAgrees(Decode(opcode).value)
  {
    match opcode
    case 0x18 =>
    case 0x38 =>
    case 0x4C =>
    case 0x61 =>
    case 0x65 =>
    case 0x69 =>
    case 0x6C =>
    case 0x6D =>
    case 0x71 =>
    case 0x75 =>
    case 0x79 =>
    case 0x7D =>
    case _ =>
  }

  lemma {:induction false} RowsAgree80To9F(opcode: Byte)
    requires 0x80 <= opcode < 0xA0
    ensures RowAgrees(Decode(opcode).value)
  {
    match opcode
    case 0x81 =>
    case 0x85 =>
    case 0x8D =>
    case 0x91 =>
    case 0x95 =>
    case 0x99 =>
    case 0x9D =>
    case _ =>
  }

  lemma {:induction false} RowsAgreeA0ToAF(opcode: Byte)
    requires 0xA0 <= opcode < 0xB0
    ensures RowAgrees(Decode(opcode).value)
  {
    match opcode
    case 0xA0 =>
    case 0xA1 =>
    case 0xA2 =>
    case 0xA4 =>
    case 0xA5 =>
    case 0xA6 =>
    case 0xA9 =>
    case 0xAC =>
    case 0xAD =>
    case 0xAE =>
    case _ =>
  }

  lemma {:induction false} RowsAgreeB0ToB7(opcode: Byte)
    requires 0xB0 <= opcode < 0xB8
    ensures RowAgrees(Decode(opcode).value)
  {
    match opcode
    case 0xB1 =>
    case 0xB4 =>
    case 0xB5 =>
    case 0xB6 =>
    case _ =>
  }

  lemma {:induction false} RowsAgreeB8ToBF(opcode: Byte)
    requires 0xB8 <= opcode < 0xC0
    ensures RowAgrees(Decode(opcode).value)
  {
    match opcode
    case 0xB9 =>
    case 0xBC =>
    case 0xBD =>
    case 0xBE =>
    case _ =>
  }

  lemma {:induction false} RowsAgreeFromC0(opcode: Byte)
    requires 0xC0 <= opcode < 0xFF
    ensures RowAgrees(Decode(opcode).value)
  {
    match opcode
    case 0xEA =>
    case _ =>
  }

  /** Only the 38 listed opcodes are implemented; every other one below 0xFF is
      the one-byte, two-cycle placeholder. */
  lemma {:induction false} UnlistedOpcodesAreIllegal(opcode: Byte)
    requires opcode != 0xFF
    requires opcode !in {0x18, 0x38, 0x4C, 0x61, 0x65, 0x69, 0x6C, 0x6D, 0x71, 0x75,
                         0x79, 0x7D, 0x81, 0x85, 0x8D, 0x91, 0x95, 0x99, 0x9D, 0xA0,
                         0xA1, 0xA2, 0xA4, 0xA5, 0xA6, 0xA9, 0xAC, 0xAD, 0xAE, 0xB1,
                         0xB4, 0xB5, 0xB6, 0xB9, 0xBC, 0xBD, 0xBE, 0xEA}
    ensures Decode(opcode) == Some(IllegalEntry)
  {
  }
}
