/** The AArch64 system-register layouts declared as `u64` bit-field structs,
    one table per struct, fields in declaration order. The header states that
    it follows the Arm Architecture Reference Manual for A-profile
    (ARM DDI 0487), Part D, "AArch64 System Register Descriptions".

    The longer structs are written as concatenations of consecutive groups of
    declarations; the concatenation is the struct's declaration list. */
module Registers {
  import opened Sizes
  import opened Bits
  import opened Layout

  /** CurrentEL: RES1 [1:0], EL [3:2], RES0 [63:4]. */
  const CurrentElTable: Table := [Field("RES1", 2), Field("EL", 2), Field("RES0", 60)]

  /** ESR_EL1: ISS [24:0], IL [25], EC [31:26], RES [63:32]. */
  const EsrEl1Table: Table := [Field("ISS", 25), Field("IL", 1), Field("EC", 6), Field("RES", 32)]

  /** ELR_EL1: the whole register is the return address. */
  const ElrEl1Table: Table := [Field("RA", 64)]

  /** FAR_EL1: the whole register is the faulting virtual address. */
  const FarEl1Table: Table := [Field("FVA", 64)]

  /** SCTLR_EL1, declarations M to IDT. */
  const SctlrEl1Bits0To7: Table := [
    Field("M", 1), Field("A", 1), Field("C", 1), Field("SA", 1), Field("SA0", 1),
    Field("CP15BEN", 1), Field("nAA", 1), Field("IDT", 1)
  ]

  /** SCTLR_EL1, declarations SED to nTWI. */
  const SctlrEl1Bits8To16: Table := [
    Field("SED", 1), Field("UMA", 1), Field("EnRCTX", 1), Field("EOS", 1), Field("I", 1),
    Field("EnDB", 1), Field("DZE", 1), Field("UCT", 1), Field("nTWI", 1)
  ]

  /** SCTLR_EL1, declarations nTWE to EE0. */
  const SctlrEl1Bits17To23: Table := [
    Field("nTWE", 1), Field("WXN", 1), Field("TSCXT", 1), Field("IESB", 1), Field("EIS", 1),
    Field("SPAN", 1), Field("EE0", 1)
  ]

  /** SCTLR_EL1, declarations EE to EnIA. */
  const SctlrEl1Bits24To30: Table := [
    Field("EE", 1), Field("UCI", 1), Field("EnDA", 1), Field("nTLSMD", 1), Field("LSMAOE", 1),
    Field("EnIB", 1), Field("EnIA", 1)
  ]

  /** SCTLR_EL1, declarations RES1 to TCF. */
  const SctlrEl1Bits31To40: Table := [
    Field("RES1", 3), Field("BT0", 1), Field("BT1", 1), Field("ITFSB", 1), Field("TCF0", 2),
    Field("TCF", 2)
  ]

  /** SCTLR_EL1, declarations ATA0 to RES0. */
  const SctlrEl1Bits41To62: Table := [
    Field("ATA0", 1), Field("ATA", 1), Field("DSSBS", 1), Field("TWEDEn", 1), Field("TWEDEL", 4),
    Field("RES0", 14)
  ]

  /** SCTLR_EL1 declarations up to nTWI, which the Arm manual puts at bit 16. */
  const SctlrEl1Low: Table := SctlrEl1Bits0To7 + SctlrEl1Bits8To16

  /** SCTLR_EL1 declarations from nTWE on. */
  const SctlrEl1High: Table := SctlrEl1Bits17To23 + SctlrEl1Bits24To30 + SctlrEl1Bits31To40 + SctlrEl1Bits41To62

  /** SCTLR_EL1 exactly as declared: nTWE follows nTWI directly. */
  const SctlrEl1Table: Table := SctlrEl1Low + SctlrEl1High

  /** The reserved bit 17 of the Arm layout, which the declaration omits. */
  const SctlrEl1Bit17: Field := Field("RES0_17", 1)

  /** SCTLR_EL1 with the reserved bit 17 placed between nTWI and nTWE, as in
      the Arm Architecture Reference Manual. */
  const SctlrEl1ArmTable: Table := SctlrEl1Low + [SctlrEl1Bit17] + SctlrEl1High

  /** SPSR_EL1, declarations M3 to E. */
  const SpsrEl1Bits0To9: Table := [
    Field("M3", 4), Field("M4", 1), Field("T", 1), Field("F", 1), Field("I", 1),
    Field("A", 1), Field("E", 1)
  ]

  /** SPSR_EL1, declarations IT1 to DIT. */
  const SpsrEl1Bits10To24: Table := [
    Field("IT1", 6), Field("GE", 4), Field("IL", 1), Field("SS", 1), Field("PAN", 1),
    Field("SSBS", 1), Field("DIT", 1)
  ]

  /** SPSR_EL1, declarations IT2 to RES. */
  const SpsrEl1Bits25To63: Table := [
    Field("IT2", 2), Field("Q", 1), Field("V", 1), Field("C", 1), Field("Z", 1),
    Field("N", 1), Field("RES", 32)
  ]

  const SpsrEl1Table: Table := SpsrEl1Bits0To9 + SpsrEl1Bits10To24 + SpsrEl1Bits25To63

  /** VBAR_EL1: RES0 [10:0], VBA [63:11]. */
  const VbarEl1Table: Table := [Field("RES0", 11), Field("VBA", 53)]

  /** The seven structs as declared, in header order. */
  const DeclaredTables: seq<Table> :=
    [CurrentElTable, EsrEl1Table, ElrEl1Table, FarEl1Table, SctlrEl1Table, SpsrEl1Table, VbarEl1Table]

  /** The same seven layouts with SCTLR_EL1 as the Arm manual lays it out. */
  const ArmTables: seq<Table> :=
    [CurrentElTable, EsrEl1Table, ElrEl1Table, FarEl1Table, SctlrEl1ArmTable, SpsrEl1Table, VbarEl1Table]

  // ---------------------------------------------------------------------
  // Widths

  lemma SctlrEl1LowWidth()
    ensures |SctlrEl1Low| == 17 && TotalWidth(SctlrEl1Low) == 17
  {
    assert Offset(SctlrEl1Bits0To7, 8) == 8;
    assert Offset(SctlrEl1Bits8To16, 9) == 9;
    TotalWidthAppend(SctlrEl1Bits0To7, SctlrEl1Bits8To16);
  }

  lemma SctlrEl1Bit17Width()
    ensures TotalWidth([SctlrEl1Bit17]) == 1
  {
    assert Offset([SctlrEl1Bit17], 1) == 1;
  }

  lemma SctlrEl1Bits17To40Width()
    ensures |SctlrEl1Bits17To23 + SctlrEl1Bits24To30 + SctlrEl1Bits31To40| == 20
    ensures TotalWidth(SctlrEl1Bits17To23 + SctlrEl1Bits24To30 + SctlrEl1Bits31To40) == 24
  {
    assert Offset(SctlrEl1Bits17To23, 7) == 7;
    assert Offset(SctlrEl1Bits24To30, 7) == 7;
    assert Offset(SctlrEl1Bits31To40, 6) == 10;
    TotalWidthAppend(SctlrEl1Bits17To23, SctlrEl1Bits24To30);
    TotalWidthAppend(SctlrEl1Bits17To23 + SctlrEl1Bits24To30, SctlrEl1Bits31To40);
  }

  lemma SctlrEl1Bits41To62Offsets()
    ensures TotalWidth(SctlrEl1Bits41To62) == 22
    ensures Offset(SctlrEl1Bits41To62, 4) == 4 && Offset(SctlrEl1Bits41To62, 5) == 8
  {
    assert Offset(SctlrEl1Bits41To62, 6) == 22;
  }

  lemma SctlrEl1HighWidth()
    ensures |SctlrEl1High| == 26 && TotalWidth(SctlrEl1High) == 46
  {
    SctlrEl1Bits17To40Width();
    SctlrEl1Bits41To62Offsets();
    TotalWidthAppend(SctlrEl1Bits17To23 + SctlrEl1Bits24To30 + SctlrEl1Bits31To40, SctlrEl1Bits41To62);
  }

  /** The declarations from nTWE on start with nTWE. */
  lemma SctlrEl1HighNTwe()
    ensures SctlrEl1High[0] == Field("nTWE", 1) && Offset(SctlrEl1High, 0) == 0
  {
    assert SctlrEl1High[0] == SctlrEl1Bits17To23[0];
  }

  lemma SctlrEl1Bits17To30()
    ensures |SctlrEl1Bits17To23| == 7 && TotalWidth(SctlrEl1Bits17To23) == 7
    ensures SctlrEl1Bits24To30[6] == Field("EnIA", 1) && Offset(SctlrEl1Bits24To30, 6) == 6
  {
    assert Offset(SctlrEl1Bits17To23, 7) == 7;
    assert Offset(SctlrEl1Bits24To30, 6) == 6;
  }

  /** Within the declarations from nTWE on, EnIA is 13 bits up. */
  lemma SctlrEl1HighEnIA()
    ensures SctlrEl1High[13] == Field("EnIA", 1) && Offset(SctlrEl1High, 13) == 13
  {
    SctlrEl1Bits17To30();
    var a := SctlrEl1Bits17To23 + SctlrEl1Bits24To30;
    OffsetAppend(SctlrEl1Bits17To23, SctlrEl1Bits24To30, 6);
    assert a[13] == SctlrEl1Bits24To30[6];
    OffsetPrefix(a, SctlrEl1Bits31To40, 13);
    OffsetPrefix(a + SctlrEl1Bits31To40, SctlrEl1Bits41To62, 13);
    assert SctlrEl1High[13] == a[13];
  }

  /** Within the declarations from nTWE on, TWEDEL is 28 bits up and the final
      RES0 32 bits up. */
  lemma SctlrEl1HighTail()
    ensures SctlrEl1High[24] == Field("TWEDEL", 4) && Offset(SctlrEl1High, 24) == 28
    ensures SctlrEl1High[25] == Field("RES0", 14) && Offset(SctlrEl1High, 25) == 32
  {
    SctlrEl1Bits17To40Width();
    SctlrEl1Bits41To62Offsets();
    var pre := SctlrEl1Bits17To23 + SctlrEl1Bits24To30 + SctlrEl1Bits31To40;
    OffsetAppend(pre, SctlrEl1Bits41To62, 4);
    OffsetAppend(pre, SctlrEl1Bits41To62, 5);
  }

  lemma SctlrEl1Widths()
    ensures TotalWidth(SctlrEl1Table) == 63
    ensures TotalWidth(SctlrEl1ArmTable) == 64
  {
    SctlrEl1LowWidth();
    SctlrEl1HighWidth();
    SctlrEl1Bit17Width();
    TotalWidthAppend(SctlrEl1Low, SctlrEl1High);
    TotalWidthAppend(SctlrEl1Low, [SctlrEl1Bit17]);
    TotalWidthAppend(SctlrEl1Low + [SctlrEl1Bit17], SctlrEl1High);
  }

  lemma SpsrEl1Width()
    ensures TotalWidth(SpsrEl1Bits0To9 + SpsrEl1Bits10To24) == 25
    ensures TotalWidth(SpsrEl1Table) == 64
  {
    assert Offset(SpsrEl1Bits0To9, 7) == 10;
    assert Offset(SpsrEl1Bits10To24, 7) == 15;
    assert Offset(SpsrEl1Bits25To63, 7) == 39;
    TotalWidthAppend(SpsrEl1Bits0To9, SpsrEl1Bits10To24);
    TotalWidthAppend(SpsrEl1Bits0To9 + SpsrEl1Bits10To24, SpsrEl1Bits25To63);
  }

  /** Every declared struct fits its 64-bit register, and every one except
      SCTLR_EL1 covers it exactly; SCTLR_EL1 covers only 63 bits, so the
      coverage check rejects it. */
  lemma DeclaredCoverage()
    ensures forall k :: 0 <= k < |DeclaredTables| ==> FitsRegister(DeclaredTables[k])
    ensures forall k :: 0 <= k < |DeclaredTables| ==> (Covers(DeclaredTables[k]) <==> k != 4)
    ensures TotalWidth(SctlrEl1Table) == 63
  {
    assert Offset(CurrentElTable, 3) == 64;
    assert Offset(EsrEl1Table, 4) == 64;
    assert Offset(ElrEl1Table, 1) == 64;
    assert Offset(FarEl1Table, 1) == 64;
    assert Offset(VbarEl1Table, 2) == 64;
    SctlrEl1Widths();
    SpsrEl1Width();
  }

  /** With SCTLR_EL1 laid out as in the Arm manual, every layout covers its
      register exactly, so each one round-trips every 64-bit value. */
  lemma ArmCoverage(k: nat, raw: u64)
    requires k < |ArmTables|
    ensures Covers(ArmTables[k])
    ensures Encode(ArmTables[k], Decode(ArmTables[k], raw)) == raw
  {
    DeclaredCoverage();
    SctlrEl1Widths();
    assert ArmTables[k] == DeclaredTables[k] || ArmTables[k] == SctlrEl1ArmTable;
    RoundTrip(ArmTables[k], raw);
  }

  // ---------------------------------------------------------------------
  // Field positions

  /** CurrentEL.EL is bits [3:2]. */
  lemma CurrentElLevelField(raw: nat)
    ensures FieldValue(CurrentElTable, raw, "EL") == Some(Extract(raw, 2, 2))
  {
    assert IndexOf(CurrentElTable, "EL") == Some(1);
    DecodeField(CurrentElTable, raw, 1);
  }

  /** ESR_EL1 decodes to ISS = bits [24:0], IL = bit 25, EC = bits [31:26]
      and the reserved bits [63:32]. */
  lemma EsrEl1Fields(raw: u64)
    ensures Decode(EsrEl1Table, raw) == [Extract(raw, 0, 25), Bit(raw, 25), Extract(raw, 26, 6), Extract(raw, 32, 32)]
  {
    var d := Decode(EsrEl1Table, raw);
    DecodeField(EsrEl1Table, raw, 0);
    DecodeField(EsrEl1Table, raw, 1);
    DecodeField(EsrEl1Table, raw, 2);
    DecodeField(EsrEl1Table, raw, 3);
    assert Offset(EsrEl1Table, 1) == 25;
    assert Offset(EsrEl1Table, 2) == 26;
    assert Offset(EsrEl1Table, 3) == 32;
  }

  /** ELR_EL1 and FAR_EL1 are a single 64-bit field: decoding is the
      identity on the raw value. */
  lemma WholeRegisterFields(raw: u64)
    ensures Decode(ElrEl1Table, raw) == [raw]
    ensures Decode(FarEl1Table, raw) == [raw]
  {
    Pow2Of64();
    DecodeField(ElrEl1Table, raw, 0);
    DecodeField(FarEl1Table, raw, 0);
    DivModUnique(raw, 0, Pow2(64));
  }

  /** Within IT2 to RES, the flags V, C, Z and N are fields 2 to 5, at
      offsets 3 to 6. */
  lemma SpsrEl1FlagOffsets(j: nat)
    requires 2 <= j <= 5
    ensures Offset(SpsrEl1Bits25To63, j) == j + 1 && SpsrEl1Bits25To63[j].width == 1
  {
    assert Offset(SpsrEl1Bits25To63, 2) == 3;
    if j >= 3 { assert Offset(SpsrEl1Bits25To63, 3) == 4; }
    if j >= 4 { assert Offset(SpsrEl1Bits25To63, 4) == 5; }
    if j == 5 { assert Offset(SpsrEl1Bits25To63, 5) == 6; }
  }

  /** Field 14 + j of SPSR_EL1, for j from 2 to 5, is bit 26 + j. */
  lemma SpsrEl1Flag(raw: u64, j: nat)
    requires 2 <= j <= 5
    ensures SpsrEl1Table[14 + j] == SpsrEl1Bits25To63[j]
    ensures Decode(SpsrEl1Table, raw)[14 + j] == Bit(raw, 26 + j)
  {
    SpsrEl1Width();
    SpsrEl1FlagOffsets(j);
    DecodeFieldAppend(SpsrEl1Bits0To9 + SpsrEl1Bits10To24, SpsrEl1Bits25To63, raw, j);
  }

  /** SPSR_EL1 holds the condition flags N, Z, C and V at bits 31, 30, 29
      and 28. */
  lemma SpsrEl1Flags(raw: u64)
    ensures SpsrEl1Table[19] == Field("N", 1) && Decode(SpsrEl1Table, raw)[19] == Bit(raw, 31)
    ensures SpsrEl1Table[18] == Field("Z", 1) && Decode(SpsrEl1Table, raw)[18] == Bit(raw, 30)
    ensures SpsrEl1Table[17] == Field("C", 1) && Decode(SpsrEl1Table, raw)[17] == Bit(raw, 29)
    ensures SpsrEl1Table[16] == Field("V", 1) && Decode(SpsrEl1Table, raw)[16] == Bit(raw, 28)
  {
    SpsrEl1Flag(raw, 2);
    SpsrEl1Flag(raw, 3);
    SpsrEl1Flag(raw, 4);
    SpsrEl1Flag(raw, 5);
  }

  lemma Pow2Of11()
    ensures Pow2(11) == 2048
  {
    assert Pow2(8) == 256;
    Pow2Add(8, 3);
  }

  /** VBAR_EL1.VBA is bits [63:11]: the raw value shifted right by 11. */
  lemma VbarEl1Base(raw: u64)
    ensures Decode(VbarEl1Table, raw)[1] == raw / 2048
  {
    Pow2Of11();
    Pow2Of64();
    Pow2Add(11, 53);
    assert Offset(VbarEl1Table, 1) == 11;
    DecodeField(VbarEl1Table, raw, 1);
    DivBound(raw, Pow2(11), Pow2(53));
    DivModUnique(raw / 2048, 0, Pow2(53));
  }

  /** A VBAR_EL1 value assembled with the reserved field zero is the base
      address (truncated to 53 bits) times 2048, hence 2048-byte aligned. */
  lemma VbarEl1Aligned(vba: nat)
    ensures Encode(VbarEl1Table, [0, vba]) == 2048 * (vba % Pow2(53))
    ensures Encode(VbarEl1Table, [0, vba]) % 2048 == 0
  {
    Pow2Of11();
    EncodePair(Field("RES0", 11), Field("VBA", 53), 0, vba);
    MultipleMod(2048, Low(vba, 53));
  }

  // ---------------------------------------------------------------------
  // SCTLR_EL1: the missing bit 17

  /** As declared, the j-th field from nTWE on starts 17 bits above its
      offset within those declarations. */
  lemma SctlrEl1DeclaredHigh(raw: u64, j: nat)
    requires j < |SctlrEl1High|
    ensures SctlrEl1Table[17 + j] == SctlrEl1High[j]
    ensures Decode(SctlrEl1Table, raw)[17 + j] == Extract(raw, 17 + Offset(SctlrEl1High, j), SctlrEl1High[j].width)
  {
    SctlrEl1LowWidth();
    OffsetAppend(SctlrEl1Low, SctlrEl1High, j);
    DecodeField(SctlrEl1Table, raw, 17 + j);
  }

  /** In the Arm layout, the j-th field from nTWE on starts 18 bits above its
      offset within those declarations. */
  lemma SctlrEl1ArmHigh(raw: u64, j: nat)
    requires j < |SctlrEl1High|
    ensures SctlrEl1ArmTable[18 + j] == SctlrEl1High[j]
    ensures Offset(SctlrEl1ArmTable, 18 + j) == 18 + Offset(SctlrEl1High, j)
    ensures Decode(SctlrEl1ArmTable, raw)[18 + j] == Extract(raw, 18 + Offset(SctlrEl1High, j), SctlrEl1High[j].width)
  {
    SctlrEl1LowWidth();
    SctlrEl1Bit17Width();
    TotalWidthAppend(SctlrEl1Low, [SctlrEl1Bit17]);
    OffsetAppend(SctlrEl1Low + [SctlrEl1Bit17], SctlrEl1High, j);
    DecodeField(SctlrEl1ArmTable, raw, 18 + j);
  }

  /** As declared, nTWE sits at bit 17 instead of bit 18. */
  lemma SctlrEl1DeclaredNTwe(raw: u64)
    ensures SctlrEl1Table[17] == Field("nTWE", 1) && Decode(SctlrEl1Table, raw)[17] == Bit(raw, 17)
  {
    SctlrEl1HighWidth();
    SctlrEl1HighNTwe();
    SctlrEl1DeclaredHigh(raw, 0);
    assert Decode(SctlrEl1Table, raw)[17] == Extract(raw, 17, 1);
  }

  /** As declared, EnIA sits at bit 30 instead of bit 31. */
  lemma SctlrEl1DeclaredEnIA(raw: u64)
    ensures SctlrEl1Table[30] == Field("EnIA", 1) && Decode(SctlrEl1Table, raw)[30] == Bit(raw, 30)
  {
    SctlrEl1HighEnIA();
    SctlrEl1DeclaredHigh(raw, 13);
  }

  /** As declared, TWEDEL is bits [48:45] instead of [49:46]. */
  lemma SctlrEl1DeclaredTwedel(raw: u64)
    ensures SctlrEl1Table[41] == Field("TWEDEL", 4) && Decode(SctlrEl1Table, raw)[41] == Extract(raw, 45, 4)
  {
    SctlrEl1HighTail();
    SctlrEl1DeclaredHigh(raw, 24);
  }

  /** As declared, bit 63 belongs to no field. */
  lemma SctlrEl1DeclaredBit63()
    ensures OwnerOf(SctlrEl1Table, 63) == None
  {
    SctlrEl1Widths();
  }

  /** In the Arm layout nTWE is at bit 18. */
  lemma SctlrEl1ArmNTwe(raw: u64)
    ensures SctlrEl1ArmTable[18] == Field("nTWE", 1) && Decode(SctlrEl1ArmTable, raw)[18] == Bit(raw, 18)
  {
    SctlrEl1HighWidth();
    SctlrEl1HighNTwe();
    SctlrEl1ArmHigh(raw, 0);
  }

  /** In the Arm layout EnIA is at bit 31. */
  lemma SctlrEl1ArmEnIA(raw: u64)
    ensures SctlrEl1ArmTable[31] == Field("EnIA", 1) && Decode(SctlrEl1ArmTable, raw)[31] == Bit(raw, 31)
  {
    SctlrEl1HighEnIA();
    SctlrEl1ArmHigh(raw, 13);
  }

  /** In the Arm layout TWEDEL is bits [49:46]. */
  lemma SctlrEl1ArmTwedel(raw: u64)
    ensures SctlrEl1ArmTable[42] == Field("TWEDEL", 4) && Decode(SctlrEl1ArmTable, raw)[42] == Extract(raw, 46, 4)
  {
    SctlrEl1HighTail();
    SctlrEl1ArmHigh(raw, 24);
  }

  /** In the Arm layout bit 63 belongs to the final RES0 field, bits [63:50]. */
  lemma SctlrEl1ArmBit63()
    ensures SctlrEl1ArmTable[43] == Field("RES0", 14) && OwnerOf(SctlrEl1ArmTable, 63) == Some(43)
  {
    SctlrEl1Widths();
    SctlrEl1HighTail();
    SctlrEl1ArmHigh(0, 25);
    var o := OwnerOf(SctlrEl1ArmTable, 63);
    OwnerUnique(SctlrEl1ArmTable, 63, o.value, 43);
  }

  /** Every SCTLR_EL1 field declared from nTWE onward sits one bit lower than
      in the Arm layout; the fields before it are where the manual puts them. */
  lemma SctlrEl1Misplaced(i: nat)
    requires i < |SctlrEl1Table|
    ensures i < 17 ==> SctlrEl1ArmTable[i] == SctlrEl1Table[i] && Offset(SctlrEl1ArmTable, i) == Offset(SctlrEl1Table, i)
    ensures i >= 17 ==> SctlrEl1ArmTable[i + 1] == SctlrEl1Table[i] && Offset(SctlrEl1ArmTable, i + 1) == Offset(SctlrEl1Table, i) + 1
  {
    SctlrEl1LowWidth();
    var low, high := SctlrEl1Low, SctlrEl1High;
    if i < 17 {
      OffsetPrefix(low, high, i);
      OffsetPrefix(low + [SctlrEl1Bit17], high, i);
      OffsetPrefix(low, [SctlrEl1Bit17], i);
    } else {
      InsertShifts(low, SctlrEl1Bit17, high, i - 17);
    }
  }

  /** Decoding an SCTLR_EL1 value and re-assembling it loses bit 63: the value
      with only bit 63 set comes back as zero. */
  lemma SctlrEl1LosesBit63()
    ensures Pow2(63) < U64_LIMIT
    ensures Encode(SctlrEl1Table, Decode(SctlrEl1Table, Pow2(63))) == 0
  {
    Pow2Of64();
    SctlrEl1Widths();
    EncodeDecode(SctlrEl1Table, Pow2(63));
    DivModUnique(0, 1, Pow2(63));
  }
}
