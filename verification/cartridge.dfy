/** The cartridge: iNES header decode, PRG/CHR storage and reads through the
    mapper. The ROM file is a byte sequence read through a model of the binary
    input stream. */
module Cartridge {
  import opened Bytes
  import opened Wrappers
  import Nrom

  /** Nametable mirroring as the header selects it. */
  datatype Mirroring = Horizontal | Vertical | SingleScreen | FourScreen

  /** The 16-byte iNES header buffer: magic, PRG and CHR bank counts, flags 6-10, padding. */
  type Header = s: seq<Byte> | |s| == 16 witness seq(16, _ => 0)

  const MAGIC: seq<Byte> := [0x4E, 0x45, 0x53, 0x1A]
  const TRAINER_SIZE: nat := 512

  /** The cartridge state. `header` and `mirroring` keep whatever they held
      until a load overwrites them. */
  datatype Cartridge = Cartridge(
    validRom: bool,
    banksPRG: int,
    banksCHR: int,
    prg: seq<Byte>,
    chr: seq<Byte>,
    mirroring: Mirroring,
    header: Header,
    mapper: Nrom.Mapper)

  /** A fresh cartridge: not valid, one zeroed 32 KiB PRG buffer and one zeroed
      8 KiB CHR buffer, one bank of each and an NROM(1, 1) mapper. The header
      and mirroring members are left uninitialised, so they are parameters. */
  function NewCartridge(header: Header, mirroring: Mirroring): (c: Cartridge)
    ensures !IsValid(c)
    ensures |c.prg| == 32768 && forall i :: 0 <= i < |c.prg| ==> c.prg[i] == 0
    ensures |c.chr| == 8192 && forall i :: 0 <= i < |c.chr| ==> c.chr[i] == 0
    ensures c.banksPRG == 1 && c.banksCHR == 1
    ensures c.mapper == Nrom.Mapper(1, 1)
  {
    Cartridge(false, 1, 1, seq(32768, _ => 0), seq(8192, _ => 0), mirroring, header, Nrom.Mapper(1, 1))
  }

  /** A binary input stream over the file contents: a position and whether the
      stream is still good. Once an operation runs out of data the stream goes
      bad and every later operation extracts nothing. */
  datatype Stream = Stream(data: seq<Byte>, pos: nat, good: bool) {
    ghost predicate Valid() {
      pos <= |data|
    }
  }

  /** Opening the file: a file that cannot be opened yields a stream that is bad from the start. */
  function Open(file: Option<seq<Byte>>): (s: Stream)
    ensures s.Valid() && s.pos == 0
    ensures s.good <==> file.Some?
    ensures file.Some? ==> s.data == file.value
  {
    match file
    case None => Stream([], 0, false)
    case Some(data) => Stream(data, 0, true)
  }

  /** The bytes left in the stream. */
  function Remaining(s: Stream): nat
    requires s.Valid()
  {
    |s.data| - s.pos
  }

  /** `read(n)`: extracts up to n bytes; fewer than n makes the stream bad. */
  function ReadBytes(s: Stream, n: nat): (r: (Stream, seq<Byte>))
    requires s.Valid()
    ensures r.0.Valid()
    ensures !s.good ==> r.1 == [] && r.0 == s
    ensures s.good ==> |r.1| == Min(n, Remaining(s))
    ensures s.good ==> forall i :: 0 <= i < |r.1| ==> r.1[i] == s.data[s.pos + i]
    ensures r.0.good <==> s.good && n <= Remaining(s)
    ensures r.0.data == s.data
  {
    if !s.good then (s, [])
    else
      var k := Min(n, Remaining(s));
      (Stream(s.data, s.pos + k, n <= Remaining(s)), s.data[s.pos..s.pos + k])
  }

  /** `ignore(n)`: skips up to n bytes; hitting the end makes the stream bad. */
  function Skip(s: Stream, n: nat): (r: Stream)
    requires s.Valid()
    ensures r.Valid()
    ensures !s.good ==> r == s
    ensures s.good ==> r.pos == s.pos + Min(n, Remaining(s))
    ensures r.good <==> s.good && n <= Remaining(s)
    ensures r.data == s.data
  {
    if !s.good then s
    else Stream(s.data, s.pos + Min(n, Remaining(s)), n <= Remaining(s))
  }

  function Min(a: nat, b: nat): nat {
    if a <= b then a else b
  }

  /** Copies `src` over the front of `dest`, as a read into an existing buffer does. */
  function Overlay(dest: seq<Byte>, src: seq<Byte>): (r: seq<Byte>)
    requires |src| <= |dest|
    ensures |r| == |dest|
    ensures forall i :: 0 <= i < |r| ==> r[i] == if i < |src| then src[i] else dest[i]
  {
    src + dest[|src|..]
  }

  /** `vector::resize(n)`: keeps the first n bytes and zero-fills any growth. */
  function Resize(v: seq<Byte>, n: nat): (r: seq<Byte>)
    ensures |r| == n
    ensures forall i :: 0 <= i < n ==> r[i] == if i < |v| then v[i] else 0
  {
    if n <= |v| then v[..n] else v + seq(n - |v|, _ => 0)
  }

  predicate HasMagic(header: Header) {
    header[..4] == MAGIC
  }

  /** Header byte 6 selects four-screen (bit 3) before vertical (bit 0); otherwise horizontal. */
  function DecodeMirroring(flags6: Byte): (r: Mirroring)
    ensures r == FourScreen <==> Bit(flags6, 3)
    ensures r == Vertical <==> !Bit(flags6, 3) && Bit(flags6, 0)
    ensures r == Horizontal <==> !Bit(flags6, 3) && !Bit(flags6, 0)
    ensures r != SingleScreen
  {
    if (flags6 as bv8) & 0x08 != 0 then FourScreen
    else if (flags6 as bv8) & 0x01 != 0 then Vertical
    else Horizontal
  }

  /** Bit i of a byte. */
  predicate Bit(b: Byte, i: nat) {
    b / Pow2(i) % 2 == 1
  }

  function Pow2(i: nat): (r: nat)
    ensures r >= 1
  {
    if i == 0 then 1 else 2 * Pow2(i - 1)
  }

  /** The mapper number: the high nibble of flags 7 over the high nibble of flags 6. */
  function MapperNumber(header: Header): (r: Byte)
    ensures r / 16 == header[7] / 16
    ensures r % 16 == header[6] / 16
  {
    // (flags7 & 0xF0) | ((flags6 & 0xF0) >> 4): the two nibbles do not overlap
    header[7] / 16 * 16 + header[6] / 16
  }

  /** The arithmetic reading agrees with the bitwise expression as written. */
  lemma MapperNumberIsBitwise(header: Header)
    ensures MapperNumber(header) as bv8
            == ((header[7] as bv8) & 0xF0) | (((header[6] as bv8) & 0xF0) >> 4)
  {
    var r := ((header[7] as bv8) & 0xF0) | (((header[6] as bv8) & 0xF0) >> 4);
    assert r as int == MapperNumber(header) by {
      NibblesJoin(header[7], header[6]);
    }
    BitsRoundTrip(r);
  }

  /** The or of one byte's high nibble with another's shifted down, as a number. */
  lemma NibblesJoin(a: Byte, b: Byte)
    ensures ((((a as bv8) & 0xF0) | (((b as bv8) & 0xF0) >> 4)) as int) == a / 16 * 16 + b / 16
  {
    var hi, lo := (a as bv8) & 0xF0, ((b as bv8) & 0xF0) >> 4;
    assert hi as int == a / 16 * 16 by {
      ByteRoundTrip(a);
      HighNibble(a as bv8);
    }
    assert lo as int == b / 16 by {
      ByteRoundTrip(b);
      HighNibble(b as bv8);
    }
    DisjointOr(hi, lo);
  }

  /** The high nibble of a byte, masked in place and shifted down, as numbers. */
  lemma HighNibble(b: bv8)
    ensures ((b & 0xF0) as int) == (b as int) / 16 * 16
    ensures (((b & 0xF0) >> 4) as int) == (b as int) / 16
  {
  }

  /** An or of bytes with no bit in common is their sum. */
  lemma DisjointOr(p: bv8, q: bv8)
    requires p & 0x0F == 0 && q & 0xF0 == 0
    ensures (p | q) as int == p as int + q as int
  {
  }

  lemma ByteRoundTrip(x: Byte)
    ensures (x as bv8) as int == x
  {
    assert x % 0x100 == x;
  }

  lemma BitsRoundTrip(b: bv8)
    ensures (b as int) as bv8 == b
  {
  }

  /** Loads an iNES file. The 16 header bytes are read first (a short file
      fills only a prefix of the header buffer). A wrong magic returns at once.
      Otherwise the bank counts are taken, both buffers resized, the mirroring
      decoded, a 512-byte trainer skipped when flags 6 bit 2 is set, the PRG and
      CHR data read in file order over the resized buffers, and the cartridge
      marked valid, however much data the file held. The mapper is not rebuilt. */
  function LoadFile(c: Cartridge, file: Option<seq<Byte>>): (r: Cartridge)
    ensures r.mapper == c.mapper
    ensures IsValid(r) <==> IsValid(c) || HasMagic(r.header)
    ensures !HasMagic(r.header) ==> r == c.(header := r.header)
    ensures HasMagic(r.header) ==>
              && r.banksPRG == r.header[4] && |r.prg| == Nrom.PRG_BANK_SIZE * r.header[4]
              && r.banksCHR == r.header[5] && |r.chr| == Nrom.CHR_BANK_SIZE * r.header[5]
              && r.mirroring == DecodeMirroring(r.header[6])
  {
    var (s1, headerBytes) := ReadBytes(Open(file), 16);
    var header: Header := Overlay(c.header, headerBytes);
    if !HasMagic(header) then
      c.(header := header)
    else
      var banksPRG := header[4];
      var banksCHR := header[5];
      var prg := Resize(c.prg, Nrom.PRG_BANK_SIZE * banksPRG);
      var chr := Resize(c.chr, Nrom.CHR_BANK_SIZE * banksCHR);
      var flags6 := header[6];
      var s2 := if (flags6 as bv8) & 0x04 != 0 then Skip(s1, TRAINER_SIZE) else s1;
      var (s3, prgBytes) := ReadBytes(s2, |prg|);
      var (_, chrBytes) := ReadBytes(s3, |chr|);
      Cartridge(
        validRom := true,
        banksPRG := banksPRG,
        banksCHR := banksCHR,
        prg := Overlay(prg, prgBytes),
        chr := Overlay(chr, chrBytes),
        mirroring := DecodeMirroring(flags6),
        header := header,
        mapper := c.mapper)
  }

  /** A PRG read goes through the mapper's fold; the index must land inside the buffer. */
  function ReadFromPRG(c: Cartridge, address: Word): (r: Byte)
    requires c.mapper.banksPRG >= 1
    requires Nrom.GetAddressPRG(c.mapper, address) < |c.prg|
    ensures address < Nrom.PrgWindow(c.mapper) ==> r == c.prg[address]
    ensures c.mapper.banksPRG == 1 ==> r == c.prg[address % Nrom.PRG_BANK_SIZE]
  {
    c.prg[Nrom.GetAddressPRG(c.mapper, address)]
  }

  /** A CHR read folds into one 8 KiB bank; the index must land inside the buffer. */
  function ReadFromCHR(c: Cartridge, address: Word): (r: Byte)
    requires Nrom.GetAddressCHR(c.mapper, address) < |c.chr|
    ensures address < Nrom.CHR_BANK_SIZE ==> r == c.chr[address]
  {
    c.chr[Nrom.GetAddressCHR(c.mapper, address)]
  }

  /** CHR reads repeat every 8 KiB, whatever the CHR size. */
  lemma ChrReadsRepeat(c: Cartridge, address: Word)
    requires address >= Nrom.CHR_BANK_SIZE
    requires Nrom.GetAddressCHR(c.mapper, address) < |c.chr|
    ensures Nrom.GetAddressCHR(c.mapper, address - Nrom.CHR_BANK_SIZE) < |c.chr|
    ensures ReadFromCHR(c, address) == ReadFromCHR(c, address - Nrom.CHR_BANK_SIZE)
  {
    assert (address - 8192) % 8192 == address % 8192;
  }

  /** With the mapper at one bank of each, as it always is, every PRG and CHR
      read lands inside buffers of at least one bank. */
  lemma {:induction false} ReadsStayInBounds(c: Cartridge, address: Word)
    requires c.mapper == Nrom.Mapper(1, 1)
    requires |c.prg| >= Nrom.PRG_BANK_SIZE && |c.chr| >= Nrom.CHR_BANK_SIZE
    ensures Nrom.GetAddressPRG(c.mapper, address) < |c.prg|
    ensures Nrom.GetAddressCHR(c.mapper, address) < |c.chr|
  {
    assert Nrom.PrgWindow(c.mapper) == Nrom.PRG_BANK_SIZE;
  }

  predicate IsValid(c: Cartridge) {
    c.validRom
  }

  /** A file whose first four bytes are not the magic leaves everything but the
      header buffer as it was; in particular the validity flag. */
  lemma {:induction false} BadMagicChangesNothing(c: Cartridge, file: seq<Byte>)
    requires |file| >= 4 && file[..4] != MAGIC
    ensures var r := LoadFile(c, Some(file));
            && r == c.(header := r.header)
            && (IsValid(r) <==> IsValid(c))
  {
    var (_, headerBytes) := ReadBytes(Open(Some(file)), 16);
    var header: Header := Overlay(c.header, headerBytes);
    assert header[..4] == file[..4] by {
      forall i | 0 <= i < 4 ensures header[i] == file[i] {
      }
    }
  }

  /** With the magic in place the cartridge becomes valid, the buffers take the
      sizes the header gives, the mirroring follows flags 6 and the mapper is kept. */
  lemma {:induction false} GoodMagicDecodesHeader(c: Cartridge, file: seq<Byte>)
    requires |file| >= 16 && file[..4] == MAGIC
    ensures var r := LoadFile(c, Some(file));
            && IsValid(r)
            && r.banksPRG == file[4] && |r.prg| == Nrom.PRG_BANK_SIZE * file[4]
            && r.banksCHR == file[5] && |r.chr| == Nrom.CHR_BANK_SIZE * file[5]
            && r.mirroring == DecodeMirroring(file[6])
            && r.header == file[..16]
            && r.mapper == c.mapper
  {
    var (_, headerBytes) := ReadBytes(Open(Some(file)), 16);
    var header: Header := Overlay(c.header, headerBytes);
    assert header == file[..16];
  }

  /** An iNES image: the magic, the bank counts, flags 6 and 7, eight zero
      bytes, an optional trainer, then the PRG and CHR data. */
  function BuildImage(flags6: Byte, flags7: Byte, trainer: seq<Byte>, prg: seq<Byte>, chr: seq<Byte>): (file: seq<Byte>)
    requires |prg| % 16384 == 0 && |prg| / 16384 <= 0xFF
    requires |chr| % 8192 == 0 && |chr| / 8192 <= 0xFF
    ensures |file| == 16 + |trainer| + |prg| + |chr|
    ensures file[..4] == MAGIC
  {
    MAGIC + [|prg| / 16384, |chr| / 8192, flags6, flags7] + seq(8, _ => 0) + trainer + prg + chr
  }

  /** Loading an image built from header fields, a trainer matching flags 6
      bit 2, and PRG/CHR data returns that data, the bank counts and the
      mirroring the flags select. */
  lemma {:induction false} LoadBuiltImage(c: Cartridge, flags6: Byte, flags7: Byte, trainer: seq<Byte>, prg: seq<Byte>, chr: seq<Byte>)
    requires |prg| % 16384 == 0 && |prg| / 16384 <= 0xFF
    requires |chr| % 8192 == 0 && |chr| / 8192 <= 0xFF
    requires |trainer| == (if (flags6 as bv8) & 0x04 != 0 then TRAINER_SIZE else 0)
    ensures var r := LoadFile(c, Some(BuildImage(flags6, flags7, trainer, prg, chr)));
            && IsValid(r)
            && r.prg == prg && r.chr == chr
            && r.banksPRG == |prg| / 16384 && r.banksCHR == |chr| / 8192
            && r.mirroring == DecodeMirroring(flags6)
            && MapperNumber(r.header) == flags7 / 16 * 16 + flags6 / 16
  {
    var file := BuildImage(flags6, flags7, trainer, prg, chr);
    var t := |trainer|;
    BuildImageParts(flags6, flags7, trainer, prg, chr);
    var (s1, headerBytes) := ReadBytes(Open(Some(file)), 16);
    var header: Header := Overlay(c.header, headerBytes);
    assert header == file[..16];
    assert s1 == Stream(file, 16, true);
    GoodMagicDecodesHeader(c, file);
    var s2 := if (flags6 as bv8) & 0x04 != 0 then Skip(s1, TRAINER_SIZE) else s1;
    assert s2 == Stream(file, 16 + t, true);
    ReadWhole(s2, |prg|);
    var (s3, prgBytes) := ReadBytes(s2, |prg|);
    ReadWhole(s3, |chr|);
  }

  /** Where each part of a built image lies. */
  lemma BuildImageParts(flags6: Byte, flags7: Byte, trainer: seq<Byte>, prg: seq<Byte>, chr: seq<Byte>)
    requires |prg| % 16384 == 0 && |prg| / 16384 <= 0xFF
    requires |chr| % 8192 == 0 && |chr| / 8192 <= 0xFF
    ensures var file := BuildImage(flags6, flags7, trainer, prg, chr);
            var t := |trainer|;
            && file[4] == |prg| / 16384 && file[5] == |chr| / 8192
            && file[6] == flags6 && file[7] == flags7
            && file[16 + t..16 + t + |prg|] == prg
            && file[16 + t + |prg|..16 + t + |prg| + |chr|] == chr
  {
    var head := MAGIC + [|prg| / 16384, |chr| / 8192, flags6, flags7] + seq(8, _ => 0);
    assert BuildImage(flags6, flags7, trainer, prg, chr) == head + trainer + prg + chr;
  }

  /** A read of n bytes from a good stream holding at least n more returns
      exactly those bytes and leaves the stream good. */
  lemma ReadWhole(s: Stream, n: nat)
    requires s.Valid() && s.good && s.pos + n <= |s.data|
    ensures ReadBytes(s, n) == (Stream(s.data, s.pos + n, true), s.data[s.pos..s.pos + n])
  {
  }

  /** A file holding only a valid header still yields a valid cartridge; the
      resized PRG buffer keeps its earlier contents, zero-filled past them. */
  lemma {:induction false} HeaderOnlyFileIsValid(c: Cartridge, header: Header)
    requires header[..4] == MAGIC && header[6] / 4 % 2 == 0
    ensures var r := LoadFile(c, Some(header));
            && IsValid(r)
            && r.prg == Resize(c.prg, Nrom.PRG_BANK_SIZE * header[4])
            && r.chr == Resize(c.chr, Nrom.CHR_BANK_SIZE * header[5])
  {
    var (s1, headerBytes) := ReadBytes(Open(Some(header)), 16);
    assert Overlay(c.header, headerBytes) == header;
    assert !s1.good || Remaining(s1) == 0;
  }

  /** The mapper keeps the bank counts of the fresh cartridge, so after loading
      a two-bank image the PRG read at 0x4000 returns the first PRG byte
      rather than the first byte of the second bank. */
  lemma {:induction false} PrgFoldIgnoresLoadedBanks(header: Header, mirroring: Mirroring, flags6: Byte, flags7: Byte, prg: seq<Byte>, chr: seq<Byte>)
    requires |prg| == 2 * 16384 && |chr| == 8192
    requires (flags6 as bv8) & 0x04 == 0
    ensures var r := LoadFile(NewCartridge(header, mirroring), Some(BuildImage(flags6, flags7, [], prg, chr)));
            && r.banksPRG == 2
            && r.mapper == Nrom.Mapper(1, 1)
            && ReadFromPRG(r, 0x4000) == prg[0]
  {
    var c := NewCartridge(header, mirroring);
    var file := BuildImage(flags6, flags7, [], prg, chr);
    var r := LoadFile(c, Some(file));
    LoadBuiltImage(c, flags6, flags7, [], prg, chr);
    GoodMagicDecodesHeader(c, file);
    assert r.prg == prg && r.mapper == Nrom.Mapper(1, 1);
    assert Nrom.GetAddressPRG(r.mapper, 0x4000) == 0;
  }
}
