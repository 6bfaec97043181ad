/** Reading the current exception level. The kernel reads the CurrentEL
    system register into a `CurrentEL` struct and returns its two-bit EL field
    as a `u8`. The register read itself is an instruction whose result is
    given here as the parameter `raw`. */
module Exceptions {
  import opened Sizes
  import opened Bits
  import opened Layout
  import opened Registers

  /** The EL field of a CurrentEL value, converted to `u8` the way C converts
      an unsigned value to a narrower unsigned type (modulo 2^8). The level is
      bits [3:2] of the register, so the conversion never loses anything. */
  function GetCurrentEl(raw: u64): (el: u8)
    ensures el == Extract(raw, 2, 2)
    ensures el <= 3
  {
    CurrentElLevelField(raw);
    Pow2Add(0, 1);
    Pow2Add(1, 1);
    FieldValue(CurrentElTable, raw, "EL").value % U8_LIMIT
  }

  /** A CurrentEL value of 4 (bit 2 set) is exception level 1. */
  lemma GetCurrentElExample()
    ensures GetCurrentEl(4) == 1
  {
    assert Pow2(2) == 4;
    assert Extract(4, 2, 2) == (4 / 4) % 4;
  }

  /** The level read back from a CurrentEL image assembled from field values
      is the EL value that was stored, truncated to its two bits; the
      reserved fields play no part. */
  lemma GetCurrentElOfFields(res1: nat, el: nat, res0: nat)
    ensures Encode(CurrentElTable, [res1, el, res0]) < U64_LIMIT &&
            GetCurrentEl(Encode(CurrentElTable, [res1, el, res0])) == el % 4
  {
    Pow2Of64();
    assert Offset(CurrentElTable, 3) == 64;
    var raw := Encode(CurrentElTable, [res1, el, res0]);
    DecodeEncode(CurrentElTable, [res1, el, res0]);
    DecodeField(CurrentElTable, raw, 1);
    assert Offset(CurrentElTable, 1) == 2;
    assert Pow2(2) == 4;
  }

  /** Changing any field other than EL leaves the level unchanged, and
      changing EL to v makes the level v truncated to two bits. */
  lemma GetCurrentElAfterSetField(raw: u64, i: nat, v: nat)
    requires i < |CurrentElTable|
    ensures FitsRegister(CurrentElTable)
    ensures i != 1 ==> GetCurrentEl(SetField(CurrentElTable, raw, i, v)) == GetCurrentEl(raw)
    ensures i == 1 ==> GetCurrentEl(SetField(CurrentElTable, raw, i, v)) == v % 4
  {
    assert Offset(CurrentElTable, 3) == 64;
    assert Offset(CurrentElTable, 1) == 2;
    assert Pow2(2) == 4;
    var r := SetField(CurrentElTable, raw, i, v);
    DecodeField(CurrentElTable, raw, 1);
    DecodeField(CurrentElTable, r, 1);
  }

  /** The level is bit 2 plus twice bit 3 of the register. */
  lemma GetCurrentElFromBits(raw: u64)
    ensures GetCurrentEl(raw) == Bit(raw, 2) + 2 * Bit(raw, 3)
  {
    assert Pow2(1) == 2 && Pow2(2) == 4;
    Pow2Add(0, 1);
    Pow2Add(2, 1);
    DivModSplit(raw / 4, 2, 2);
    ShiftShift(raw, 2, 1);
  }

  /** Two CurrentEL values give the same level exactly when they agree on
      bits 2 and 3; bits [1:0] and [63:4] never influence the result. */
  lemma GetCurrentElDependsOnlyOnBits3To2(a: u64, b: u64)
    ensures GetCurrentEl(a) == GetCurrentEl(b) <==> Bit(a, 2) == Bit(b, 2) && Bit(a, 3) == Bit(b, 3)
  {
    GetCurrentElFromBits(a);
    GetCurrentElFromBits(b);
  }
}
