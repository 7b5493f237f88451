/** Mapper 0 (NROM): cartridge addresses fold into the PRG and CHR windows by
    a plain remainder. */
module Nrom {
  import opened Bytes

  const PRG_BANK_SIZE: nat := 16384
  const CHR_BANK_SIZE: nat := 8192

  /** The mapper remembers the bank counts it was built with. */
  datatype Mapper = Mapper(banksPRG: int, banksCHR: int)

  /** The size of all PRG banks together. */
  function PrgWindow(mapper: Mapper): (w: nat)
    requires mapper.banksPRG >= 1
    ensures w >= PRG_BANK_SIZE
  {
    PRG_BANK_SIZE * mapper.banksPRG
  }

  /** PRG folding: the address modulo the size of all PRG banks. Defined only
      for at least one bank; the result fits in 16 bits because the address does. */
  function GetAddressPRG(mapper: Mapper, address: Word): (r: Word)
    requires mapper.banksPRG >= 1
    ensures r < PrgWindow(mapper)
    ensures r <= address
    ensures address < PrgWindow(mapper) ==> r == address
  {
    var w := PrgWindow(mapper);
    ModBelow(address, w);
    address % w
  }

  /** The remainder is below the divisor and no larger than the dividend, and
      equals the dividend when that is already below the divisor. */
  lemma ModBelow(x: nat, d: nat)
    requires d > 0
    ensures x % d < d && x % d <= x
    ensures x < d ==> x % d == x
  {
  }

  /** The fold removes whole windows only: the address is the folded address
      plus a whole number of PRG windows. */
  lemma {:induction false} PrgFoldRemovesWholeWindows(mapper: Mapper, address: Word)
    requires mapper.banksPRG >= 1
    ensures address == GetAddressPRG(mapper, address) + PrgWindow(mapper) * (address / PrgWindow(mapper))
  {
    var w := PrgWindow(mapper);
    assert GetAddressPRG(mapper, address) == address % w;
  }

  /** CHR folding: the address modulo one 8 KiB bank, whatever the bank count. */
  function GetAddressCHR(mapper: Mapper, address: Word): (r: Word)
    ensures r < CHR_BANK_SIZE
    ensures r <= address
    ensures (address - r) % CHR_BANK_SIZE == 0
  {
    address % CHR_BANK_SIZE
  }

  /** Addresses inside the window map to themselves, so folding is idempotent. */
  lemma {:induction false} FoldPRGIsIdempotent(mapper: Mapper, address: Word)
    requires mapper.banksPRG >= 1
    ensures GetAddressPRG(mapper, GetAddressPRG(mapper, address)) == GetAddressPRG(mapper, address)
  {
  }

  lemma {:induction false} FoldCHRIdentityBelowWindow(mapper: Mapper, address: Word)
    ensures address < CHR_BANK_SIZE ==> GetAddressCHR(mapper, address) == address
    ensures GetAddressCHR(mapper, GetAddressCHR(mapper, address)) == GetAddressCHR(mapper, address)
  {
  }

  /** The CHR fold ignores the bank count. */
  lemma CHRFoldIgnoresBanks(mapper: Mapper, other: Mapper, address: Word)
    ensures GetAddressCHR(mapper, address) == GetAddressCHR(other, address)
  {
  }
}
