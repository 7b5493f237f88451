/** The CPU's main bus: 2 KiB of work RAM at 0x0000-0x07FF. Every other
    address is an inert stub that reads as 0 and ignores writes; in particular
    the RAM is not mirrored at 0x0800-0x1FFF. The NES bus class carries the
    identical decode, so this one module stands for both. */
module MainBus {
  import opened Bytes

  const RAM_SIZE: nat := 2048
  const RAM_LAST: Word := 0x07FF

  /** The RAM array, exactly 2048 bytes. */
  type Ram = s: seq<Byte> | |s| == RAM_SIZE witness seq(RAM_SIZE, _ => 0)

  predicate InRam(address: Word) {
    address <= RAM_LAST
  }

  /** Bus read: RAM for 0x0000-0x07FF, 0 everywhere else. */
  function Read(ram: Ram, address: Word): (r: Byte)
    ensures InRam(address) ==> r == ram[address]
    ensures !InRam(address) ==> r == 0
  {
    if address <= RAM_LAST then ram[address] else 0
  }

  /** Bus write: stores into RAM for 0x0000-0x07FF, discarded everywhere else. */
  function Write(ram: Ram, address: Word, data: Byte): (r: Ram)
    ensures InRam(address) ==> r[address] == data
    ensures forall i :: 0 <= i < RAM_SIZE && i != address ==> r[i] == ram[i]
    ensures !InRam(address) ==> r == ram
  {
    if address <= RAM_LAST then ram[address := data] else ram
  }

  /** Power-up RAM contents: every byte 0xFF. */
  function ResetRAM(): (r: Ram)
    ensures forall i :: 0 <= i < RAM_SIZE ==> r[i] == 0xFF
  {
    seq(RAM_SIZE, _ => 0xFF)
  }

  /** Advancing the bus clock: no peripheral is stepped, so the bus is unchanged. */
  function Tick(ram: Ram): (r: Ram)
    ensures r == ram
  {
    ram
  }

  /** Reading back a RAM address returns what was written there; every other
      address reads as before. */
  lemma WriteThenRead(ram: Ram, address: Word, data: Byte, other: Word)
    requires InRam(address)
    ensures Read(Write(ram, address, data), address) == data
    ensures other != address ==> Read(Write(ram, address, data), other) == Read(ram, other)
  {
  }

  /** A write outside RAM is not observable by any read. */
  lemma WriteOutsideRamInvisible(ram: Ram, address: Word, data: Byte, other: Word)
    requires !InRam(address)
    ensures Read(Write(ram, address, data), other) == Read(ram, other)
  {
  }

  /** No mirroring: the address one RAM-size above a RAM address reads 0,
      whatever was stored at the RAM address. */
  lemma NoMirroring(ram: Ram, address: Word, data: Byte)
    requires InRam(address)
    ensures Read(Write(ram, address, data), address + 0x0800) == 0
  {
  }

  /** After a RAM reset every RAM address reads 0xFF. */
  lemma ReadAfterReset(address: Word)
    requires InRam(address)
    ensures Read(ResetRAM(), address) == 0xFF
  {
  }
}
