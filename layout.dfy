/** Register layouts as the C compiler lays out a struct of `u64` bit-fields.

    Under the bit-field rules of the Procedure Call Standard for the Arm
    64-bit Architecture (AAPCS64, "Bit-fields" in its Data Types chapter), the
    fields of such a struct are allocated from the least significant bit
    upward, in declaration order, inside one 64-bit container as long as they
    fit. A layout is therefore nothing but its list of (name, width)
    declarations: the offset of a field is the sum of the widths declared
    before it, and reading the field is `(raw >> offset) & (2^width - 1)`. */
module Layout {
  import opened Sizes
  import opened Bits

  datatype Option<T> = None | Some(value: T)

  /** One declaration `u64 name : width;`. */
  datatype Field = Field(name: string, width: nat)

  /** The declarations of one register struct, in source order. */
  type Table = seq<Field>

  /** Bit offset of field i: the sum of the widths of fields 0 .. i-1. */
  function Offset(t: Table, i: nat): nat
    requires i <= |t|
  {
    if i == 0 then 0 else t[0].width + Offset(t[1..], i - 1)
  }

  /** Number of bits the declarations occupy. */
  function TotalWidth(t: Table): nat
  {
    Offset(t, |t|)
  }

  /** The struct fits in the single 64-bit register it is read from. */
  predicate FitsRegister(t: Table)
  {
    TotalWidth(t) <= 64
  }

  /** The layout accounts for every bit of the 64-bit register: the widths,
      reserved placeholders included, sum to exactly 64. */
  predicate Covers(t: Table)
  {
    TotalWidth(t) == 64
  }

  // ---------------------------------------------------------------------
  // Placement

  /** Each field starts where the previous one ends. */
  lemma {:induction false} OffsetStep(t: Table, i: nat)
    requires i < |t|
    ensures Offset(t, i + 1) == Offset(t, i) + t[i].width
  {
    if i > 0 {
      OffsetStep(t[1..], i - 1);
    }
  }

  lemma {:induction false} OffsetMonotone(t: Table, i: nat, j: nat)
    requires i <= j <= |t|
    ensures Offset(t, i) <= Offset(t, j)
  {
    if i < j {
      OffsetStep(t, j - 1);
      OffsetMonotone(t, i, j - 1);
    }
  }

  /** Appending declarations does not move the fields already declared. */
  lemma {:induction false} OffsetPrefix(a: Table, b: Table, i: nat)
    requires i <= |a|
    ensures Offset(a + b, i) == Offset(a, i)
  {
    if i > 0 {
      assert (a + b)[1..] == a[1..] + b;
      OffsetPrefix(a[1..], b, i - 1);
    }
  }

  /** The fields of b, declared after those of a, start at TotalWidth(a). */
  lemma {:induction false} OffsetAppend(a: Table, b: Table, j: nat)
    requires j <= |b|
    ensures Offset(a + b, |a| + j) == TotalWidth(a) + Offset(b, j)
  {
    if |a| > 0 {
      assert (a + b)[1..] == a[1..] + b;
      OffsetAppend(a[1..], b, j);
    } else {
      assert a + b == b;
    }
  }

  lemma TotalWidthAppend(a: Table, b: Table)
    ensures TotalWidth(a + b) == TotalWidth(a) + TotalWidth(b)
  {
    OffsetAppend(a, b, |b|);
  }

  /** Inserting the declaration f between a and b moves every field of b up
      by f.width and leaves the fields of a where they were. */
  lemma InsertShifts(a: Table, f: Field, b: Table, j: nat)
    requires j <= |b|
    ensures Offset(a + [f] + b, |a| + 1 + j) == Offset(a + b, |a| + j) + f.width
  {
    OffsetAppend(a + [f], b, j);
    OffsetAppend(a, b, j);
    TotalWidthAppend(a, [f]);
    assert Offset([f], 1) == f.width + Offset([f][1..], 0);
  }

  /** Fields never overlap: a field declared earlier ends at or below the
      start of every field declared after it, and every field ends within
      the layout's total width. */
  lemma FieldsDisjoint(t: Table, i: nat, j: nat)
    requires i < j < |t|
    ensures Offset(t, i) + t[i].width <= Offset(t, j)
    ensures Offset(t, j) + t[j].width <= TotalWidth(t)
  {
    OffsetStep(t, i);
    OffsetMonotone(t, i + 1, j);
    OffsetStep(t, j);
    OffsetMonotone(t, j + 1, |t|);
  }

  /** The field that holds bit b, if any. */
  function OwnerOf(t: Table, b: nat): (r: Option<nat>)
    ensures r.Some? <==> b < TotalWidth(t)
    ensures r.Some? ==> r.value < |t| && Offset(t, r.value) <= b < Offset(t, r.value) + t[r.value].width
  {
    if |t| == 0 then None
    else if b < t[0].width then Some(0)
    else match OwnerOf(t[1..], b - t[0].width)
      case None => None
      case Some(i) => Some(i + 1)
  }

  /** A bit belongs to at most one field. */
  lemma OwnerUnique(t: Table, b: nat, i: nat, j: nat)
    requires i < |t| && Offset(t, i) <= b < Offset(t, i) + t[i].width
    requires j < |t| && Offset(t, j) <= b < Offset(t, j) + t[j].width
    ensures i == j
  {
    if i < j {
      FieldsDisjoint(t, i, j);
    } else if j < i {
      FieldsDisjoint(t, j, i);
    }
  }

  // ---------------------------------------------------------------------
  // Decoding and encoding

  /** The value of every field of raw, in declaration order. */
  function Decode(t: Table, raw: nat): (vals: seq<nat>)
    ensures |vals| == |t|
  {
    if |t| == 0 then []
    else [Low(raw, t[0].width)] + Decode(t[1..], Shr(raw, t[0].width))
  }

  lemma TotalWidthCons(t: Table)
    requires |t| > 0
    ensures TotalWidth(t) == t[0].width + TotalWidth(t[1..])
  {
    assert |t[1..]| == |t| - 1;
  }

  /** The raw image of a struct whose fields hold vals: each value is stored
      modulo 2^width, as assignment to an unsigned bit-field does, and bits
      no field covers are zero. */
  function Encode(t: Table, vals: seq<nat>): (raw: nat)
    requires |vals| == |t|
    ensures raw < Pow2(TotalWidth(t))
  {
    if |t| == 0 then 0
    else
      var w := t[0].width;
      var rest := Encode(t[1..], vals[1..]);
      TotalWidthCons(t);
      Pow2Add(w, TotalWidth(t[1..]));
      MixedBound(Low(vals[0], w), rest, Pow2(w), Pow2(TotalWidth(t[1..])));
      MulNonneg(Pow2(w), rest);
      Low(vals[0], w) + Pow2(w) * rest
  }

  /** A two-field layout stores its first value in the low bits and its
      second value above it. */
  lemma EncodePair(f: Field, g: Field, a: nat, b: nat)
    ensures Encode([f, g], [a, b]) == Low(a, f.width) + Pow2(f.width) * Low(b, g.width)
  {
    var t := [f, g];
    assert t[1..] == [g] && [a, b][1..] == [b];
    assert Encode([g], [b]) == Low(b, g.width) + Pow2(g.width) * Encode([g][1..], [b][1..]);
  }

  /** Field i of the decoded value is `(raw >> Offset(t, i)) & (2^width - 1)`. */
  lemma {:induction false} DecodeField(t: Table, raw: nat, i: nat)
    requires i < |t|
    ensures Decode(t, raw)[i] == Extract(raw, Offset(t, i), t[i].width)
  {
    if i > 0 {
      var w := t[0].width;
      var o := Offset(t[1..], i - 1);
      assert Decode(t, raw)[i] == Decode(t[1..], Shr(raw, w))[i - 1];
      assert t[1..][i - 1] == t[i];
      DecodeField(t[1..], Shr(raw, w), i - 1);
      var shifted := Decode(t[1..], Shr(raw, w))[i - 1];
      assert shifted == Extract(Shr(raw, w), o, t[i].width);
      ExtractShr(raw, w, o, t[i].width);
      assert shifted == Extract(raw, w + o, t[i].width);
      assert Offset(t, i) == w + o;
    } else {
      assert Decode(t, raw)[0] == Low(raw, t[0].width);
      ExtractLow(raw, t[0].width);
    }
  }

  /** In a table made of two parts, field j of the second part is read at
      TotalWidth of the first part plus its offset within the second. */
  lemma DecodeFieldAppend(a: Table, b: Table, raw: nat, j: nat)
    requires j < |b|
    ensures (a + b)[|a| + j] == b[j]
    ensures Decode(a + b, raw)[|a| + j] == Extract(raw, TotalWidth(a) + Offset(b, j), b[j].width)
  {
    OffsetAppend(a, b, j);
    DecodeField(a + b, raw, |a| + j);
  }

  /** Every decoded value fits its field: it is below 2^width. */
  lemma DecodeBound(t: Table, raw: nat, i: nat)
    requires i < |t|
    ensures Decode(t, raw)[i] < Pow2(t[i].width)
  {
    DecodeField(t, raw, i);
  }

  /** Decoding then re-assembling keeps exactly the bits the layout covers. */
  lemma {:induction false} EncodeDecode(t: Table, raw: nat)
    ensures Encode(t, Decode(t, raw)) == Low(raw, TotalWidth(t))
  {
    if |t| > 0 {
      var w := t[0].width;
      var vals := Decode(t, raw);
      assert vals[1..] == Decode(t[1..], Shr(raw, w));
      EncodeDecode(t[1..], Shr(raw, w));
      LowLow(raw, w);
      SplitLow(raw, w, TotalWidth(t[1..]));
    }
  }

  /** Assembling field values then decoding gives value i back, truncated
      to its field's width. */
  lemma {:induction false} DecodeEncodeAt(t: Table, vals: seq<nat>, i: nat)
    requires |vals| == |t| && i < |t|
    ensures Decode(t, Encode(t, vals))[i] == vals[i] % Pow2(t[i].width)
  {
    var w := t[0].width;
    var rest := Encode(t[1..], vals[1..]);
    var raw := Encode(t, vals);
    assert raw == Low(vals[0], w) + Pow2(w) * rest;
    DivModUnique(Low(vals[0], w), rest, Pow2(w));
    if i > 0 {
      assert Decode(t, raw)[i] == Decode(t[1..], Shr(raw, w))[i - 1];
      assert Shr(raw, w) == rest;
      DecodeEncodeAt(t[1..], vals[1..], i - 1);
      assert t[1..][i - 1] == t[i] && vals[1..][i - 1] == vals[i];
    }
  }

  /** Assembling field values then decoding gives each value back, truncated
      to its field's width. */
  lemma DecodeEncode(t: Table, vals: seq<nat>)
    requires |vals| == |t|
    ensures forall i :: 0 <= i < |t| ==> Decode(t, Encode(t, vals))[i] == vals[i] % Pow2(t[i].width)
  {
    forall i | 0 <= i < |t|
      ensures Decode(t, Encode(t, vals))[i] == vals[i] % Pow2(t[i].width)
    {
      DecodeEncodeAt(t, vals, i);
    }
  }

  /** Round trip: for a layout that covers the register, decoding any 64-bit
      value and re-assembling all its fields reproduces it bit for bit. */
  lemma RoundTrip(t: Table, raw: u64)
    requires Covers(t)
    ensures Encode(t, Decode(t, raw)) == raw
  {
    EncodeDecode(t, raw);
    Pow2Of64();
  }

  /** The coverage check is exactly the condition for the round trip: a layout
      that fits the register reproduces every 64-bit value if and only if its
      widths sum to 64. When they sum to less, the value with only bit
      TotalWidth(t) set comes back as zero. */
  lemma CoversIffRoundTrip(t: Table)
    requires FitsRegister(t)
    ensures Covers(t) <==> forall raw: u64 :: Encode(t, Decode(t, raw)) == raw
  {
    if Covers(t) {
      forall raw: u64 ensures Encode(t, Decode(t, raw)) == raw {
        RoundTrip(t, raw);
      }
    } else {
      var n := TotalWidth(t);
      Pow2Add(n, 64 - n);
      MulGrows(Pow2(n), Pow2(64 - n));
      assert Pow2(64 - n) == 2 * Pow2(63 - n);
      Pow2Of64();
      var raw: u64 := Pow2(n);
      EncodeDecode(t, raw);
      DivModUnique(0, 1, Pow2(n));
      assert Encode(t, Decode(t, raw)) == 0 != raw;
    }
  }

  // ---------------------------------------------------------------------
  // Field access by name and field update

  /** Position of the first field called name. */
  function IndexOf(t: Table, name: string): (r: Option<nat>)
    ensures r.Some? ==> r.value < |t| && t[r.value].name == name
    ensures r.None? <==> forall i :: 0 <= i < |t| ==> t[i].name != name
  {
    if |t| == 0 then None
    else if t[0].name == name then Some(0)
    else match IndexOf(t[1..], name)
      case None => None
      case Some(i) => Some(i + 1)
  }

  /** `reg.name` for a register value raw: the named field's value, or None
      when the struct declares no such field. */
  function FieldValue(t: Table, raw: nat, name: string): (r: Option<nat>)
    ensures r.None? <==> forall i :: 0 <= i < |t| ==> t[i].name != name
    ensures r.Some? ==> exists i :: 0 <= i < |t| && t[i].name == name &&
                          r.value == Extract(raw, Offset(t, i), t[i].width)
  {
    match IndexOf(t, name)
    case None => None
    case Some(i) =>
      DecodeField(t, raw, i);
      Some(Decode(t, raw)[i])
  }

  /** `reg.field_i = v` on a register value: bits [off, off + width) of raw,
      where off = Offset(t, i), are replaced by v modulo 2^width and every
      other bit is kept. Field isolation: every other field decodes as
      before, and field i decodes to the stored value. */
  function SetField(t: Table, raw: u64, i: nat, v: nat): (r: u64)
    requires FitsRegister(t) && i < |t|
    ensures Decode(t, r) == Decode(t, raw)[i := v % Pow2(t[i].width)]
  {
    var off, w := Offset(t, i), t[i].width;
    OffsetStep(t, i);
    OffsetMonotone(t, i + 1, |t|);
    Pow2Of64();
    SetBitsBound(raw, off, w, v, 64);
    var r := SetBits(raw, off, w, v);
    var d, e := Decode(t, r), Decode(t, raw)[i := v % Pow2(w)];
    forall j | 0 <= j < |t|
      ensures d[j] == e[j]
    {
      DecodeField(t, r, j);
      DecodeField(t, raw, j);
      if j == i {
        SetBitsReadBack(raw, off, w, v);
      } else if j < i {
        FieldsDisjoint(t, j, i);
        SetBitsIsolated(raw, off, w, v, Offset(t, j), t[j].width);
      } else {
        FieldsDisjoint(t, i, j);
        SetBitsIsolated(raw, off, w, v, Offset(t, j), t[j].width);
      }
    }
    r
  }

  /** Bit-level isolation of SetField: every bit outside the updated field,
      including bits that no field covers, keeps its value. */
  lemma SetFieldKeepsOtherBits(t: Table, raw: u64, i: nat, v: nat, b: nat)
    requires FitsRegister(t) && i < |t|
    requires b < Offset(t, i) || Offset(t, i) + t[i].width <= b
    ensures Bit(SetField(t, raw, i, v), b) == Bit(raw, b)
  {
    SetBitsIsolated(raw, Offset(t, i), t[i].width, v, b, 1);
  }
}
