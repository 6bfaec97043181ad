/** Bit arithmetic on unsigned integers, stated on mathematical naturals.

    For an unsigned operand, `x >> k` is the floor of x / 2^k and
    `x & (2^w - 1)` is x mod 2^w, so the C idiom `(x >> off) & ((1 << w) - 1)`
    is `Extract(x, off, w)` below. Bit b of x is `Extract(x, b, 1)`. */
module Bits {

  /** 2^n. */
  function Pow2(n: nat): (r: nat)
    ensures r >= 1
  {
    if n == 0 then 1 else 2 * Pow2(n - 1)
  }

  /** `x >> k`. */
  function Shr(x: nat, k: nat): nat
  {
    DivNonneg(x, Pow2(k));
    x / Pow2(k)
  }

  /** `x & (2^k - 1)`: the k low bits of x. */
  function Low(x: nat, k: nat): (r: nat)
    ensures r < Pow2(k)
  {
    x % Pow2(k)
  }

  /** The w-bit field of x that starts at bit off: `(x >> off) & (2^w - 1)`. */
  function Extract(x: nat, off: nat, w: nat): (r: nat)
    ensures r < Pow2(w)
  {
    (x / Pow2(off)) % Pow2(w)
  }

  /** Bit b of x. */
  function Bit(x: nat, b: nat): (r: nat)
    ensures r <= 1
  {
    Pow2Add(0, 1);
    Extract(x, b, 1)
  }

  /** x with the bits [off, off + w) replaced by v truncated to w bits: the
      bits below off and the bits from off + w upward are those of x. This is
      "clear the field, then OR in (v mod 2^w) << off". */
  function SetBits(x: nat, off: nat, w: nat, v: nat): nat
  {
    MulNonneg(Pow2(w), Shr(x, off + w));
    MulNonneg(Pow2(off), Low(v, w) + Pow2(w) * Shr(x, off + w));
    Low(x, off) + Pow2(off) * (Low(v, w) + Pow2(w) * Shr(x, off + w))
  }

  // ---------------------------------------------------------------------
  // Arithmetic facts. Everything below reduces to DivModUnique: a number
  // written as a + m * b with 0 <= a < m has quotient b and remainder a.

  lemma {:induction false} Pow2Add(a: nat, b: nat)
    ensures Pow2(a + b) == Pow2(a) * Pow2(b)
  {
    if a > 0 {
      Pow2Add(a - 1, b);
      assert Pow2(a + b) == 2 * Pow2(a - 1 + b);
    }
  }

  lemma Pow2Of8()
    ensures Pow2(8) == 256
  {
    assert Pow2(1) == 2;
    assert Pow2(2) == 4;
    assert Pow2(4) == 16 by {
      assert Pow2(3) == 8;
    }
    assert Pow2(6) == 64 by {
      assert Pow2(5) == 32;
    }
    assert Pow2(7) == 128;
  }

  lemma Pow2Of32()
    ensures Pow2(32) == 0x1_0000_0000
  {
    Pow2Of8();
    Pow2Add(8, 8);
    Pow2Add(16, 16);
  }

  lemma Pow2Of64()
    ensures Pow2(64) == 0x1_0000_0000_0000_0000
  {
    Pow2Of32();
    Pow2Add(32, 32);
  }

  lemma Pow2Monotone(a: nat, b: nat)
    requires a <= b
    ensures Pow2(a) <= Pow2(b)
  {
    Pow2Add(a, b - a);
    MulGrows(Pow2(a), Pow2(b - a));
  }

  lemma MulGrows(m: nat, k: nat)
    requires k >= 1
    ensures m <= m * k
  {
    assert m * k == m + m * (k - 1);
  }

  lemma MulNonneg(a: nat, b: nat)
    ensures a * b >= 0
  {
    if b > 0 {
      MulGrows(a, b);
    }
  }

  /** A non-zero multiple of m is at least m away from zero. */
  lemma MulSign(m: int, k: int)
    requires m >= 0
    ensures k >= 1 ==> m * k >= m
    ensures k <= -1 ==> m * k <= -m
  {
    if k >= 1 {
      MulGrows(m, k);
    } else if k <= -1 {
      MulGrows(m, -k);
      assert m * k == -(m * -k);
    }
  }

  lemma DivModUnique(a: int, b: int, m: int)
    requires 0 <= a < m
    ensures (a + m * b) / m == b
    ensures (a + m * b) % m == a
  {
    var x := a + m * b;
    var q, r := x / m, x % m;
    assert x == m * q + r;
    assert m * (b - q) == r - a;
    MulSign(m, b - q);
  }

  lemma MultipleMod(m: nat, k: nat)
    requires m > 0
    ensures (m * k) % m == 0
  {
    DivModUnique(0, k, m);
  }

  /** a + m * b stays below m * n when a < m and b < n. */
  lemma MixedBound(a: nat, b: nat, m: nat, n: nat)
    requires a < m && b < n
    ensures a + m * b < m * n
  {
    assert m * n == m * b + m * (n - b);
    MulGrows(m, n - b);
  }

  /** Splitting x at m, then the quotient at n, is splitting x at m * n. */
  lemma DivModSplit(x: nat, m: nat, n: nat)
    requires m > 0 && n > 0
    ensures x % (m * n) == x % m + m * ((x / m) % n)
    ensures x / (m * n) == (x / m) / n
  {
    var q, r := x / m, x % m;
    var q2, r2 := q / n, q % n;
    assert x == r + m * q;
    assert q == r2 + n * q2;
    assert x == (r + m * r2) + (m * n) * q2;
    MixedBound(r, r2, m, n);
    DivModUnique(r + m * r2, q2, m * n);
  }

  lemma ModDiv(x: nat, m: nat, n: nat)
    requires m > 0 && n > 0
    ensures x % (m * n) / m == (x / m) % n
  {
    DivModSplit(x, m, n);
    DivModUnique(x % m, (x / m) % n, m);
  }

  lemma ModMod(x: nat, m: nat, n: nat)
    requires m > 0 && n > 0
    ensures x % (m * n) % m == x % m
  {
    DivModSplit(x, m, n);
    DivModUnique(x % m, (x / m) % n, m);
  }

  lemma DivNonneg(x: nat, m: nat)
    requires m > 0
    ensures x / m >= 0
  {
    assert x == m * (x / m) + x % m;
    MulSign(m, x / m);
  }

  lemma DivBound(x: nat, m: nat, n: nat)
    requires m > 0 && x < m * n
    ensures 0 <= x / m < n
  {
    assert x == m * (x / m) + x % m;
    assert m * (x / m) - m * n == m * (x / m - n);
    MulSign(m, x / m - n);
  }

  /** Shifting right by a, then by b, is shifting right by a + b. */
  lemma ShiftShift(x: nat, a: nat, b: nat)
    ensures x / Pow2(a) / Pow2(b) == x / Pow2(a + b)
  {
    Pow2Add(a, b);
    DivModSplit(x, Pow2(a), Pow2(b));
  }

  /** The field at offset 0 is the low bits. */
  lemma ExtractLow(x: nat, w: nat)
    ensures Extract(x, 0, w) == Low(x, w)
  {
    assert Pow2(0) == 1;
  }

  /** A field of x >> a is the field of x that starts a bits higher. */
  lemma ExtractShr(x: nat, a: nat, off: nat, w: nat)
    ensures Extract(Shr(x, a), off, w) == Extract(x, a + off, w)
  {
    ShiftShift(x, a, off);
  }

  lemma ModDivMod(x: nat, m: nat, n: nat, p: nat)
    requires m > 0 && n > 0 && p > 0
    ensures x % (m * (n * p)) / m % n == x / m % n
  {
    ModDiv(x, m, n * p);
    ModMod(x / m, n, p);
  }

  /** The a + b low bits of x are its a low bits followed by the b low bits
      of x >> a. */
  lemma SplitLow(x: nat, a: nat, b: nat)
    ensures Low(x, a + b) == Low(x, a) + Pow2(a) * Low(Shr(x, a), b)
  {
    Pow2Add(a, b);
    DivModSplit(x, Pow2(a), Pow2(b));
  }

  lemma LowLow(x: nat, k: nat)
    ensures Low(Low(x, k), k) == Low(x, k)
  {
    DivModUnique(Low(x, k), 0, Pow2(k));
  }

  /** A field that lies below bit k only sees x mod 2^k. */
  lemma ExtractBelow(x: nat, off: nat, w: nat, k: nat)
    requires off + w <= k
    ensures Extract(x % Pow2(k), off, w) == Extract(x, off, w)
  {
    Pow2Add(off, k - off);
    Pow2Add(w, k - off - w);
    ModDivMod(x, Pow2(off), Pow2(w), Pow2(k - off - w));
  }

  /** A number laid out as lo + m * (mid + n * hi), with lo < m and mid < n,
      gives back each of its three parts. */
  lemma ThreeParts(lo: nat, mid: nat, hi: nat, m: nat, n: nat)
    requires lo < m && mid < n
    ensures (lo + m * (mid + n * hi)) % m == lo
    ensures (lo + m * (mid + n * hi)) / m % n == mid
    ensures (lo + m * (mid + n * hi)) / m / n == hi
  {
    DivModUnique(lo, mid + n * hi, m);
    DivModUnique(mid, hi, n);
  }

  /** The three parts of SetBits: the bits of x below off, the new field and
      the bits of x from off + w upward. */
  lemma SetBitsParts(x: nat, off: nat, w: nat, v: nat)
    ensures Low(SetBits(x, off, w, v), off) == Low(x, off)
    ensures Extract(SetBits(x, off, w, v), off, w) == Low(v, w)
    ensures Shr(SetBits(x, off, w, v), off + w) == Shr(x, off + w)
  {
    var y := SetBits(x, off, w, v);
    ThreeParts(Low(x, off), Low(v, w), Shr(x, off + w), Pow2(off), Pow2(w));
    ShiftShift(y, off, w);
  }

  /** Reading the replaced field back gives the new value, truncated. */
  lemma SetBitsReadBack(x: nat, off: nat, w: nat, v: nat)
    ensures Extract(SetBits(x, off, w, v), off, w) == v % Pow2(w)
  {
    SetBitsParts(x, off, w, v);
  }

  /** Every field that lies entirely outside [off, off + w) is unchanged. */
  lemma SetBitsIsolated(x: nat, off: nat, w: nat, v: nat, a: nat, c: nat)
    requires a + c <= off || off + w <= a
    ensures Extract(SetBits(x, off, w, v), a, c) == Extract(x, a, c)
  {
    var y := SetBits(x, off, w, v);
    SetBitsParts(x, off, w, v);
    if a + c <= off {
      ExtractBelow(y, a, c, off);
      ExtractBelow(x, a, c, off);
    } else {
      ShiftShift(y, off + w, a - off - w);
      ShiftShift(x, off + w, a - off - w);
    }
  }

  lemma ThreePartBound(lo: nat, mid: nat, hi: nat, m: nat, n: nat, p: nat)
    requires lo < m && mid < n && hi < p
    ensures lo + m * (mid + n * hi) < m * (n * p)
  {
    MixedBound(mid, hi, n, p);
    MixedBound(lo, mid + n * hi, m, n * p);
  }

  lemma SplitBound(x: nat, m: nat, n: nat, p: nat, lo: nat, mid: nat)
    requires m > 0 && n > 0 && x < m * n * p && lo < m && mid < n
    ensures lo + m * (mid + n * (x / (m * n))) < m * n * p
  {
    DivBound(x, m * n, p);
    ThreePartBound(lo, mid, x / (m * n), m, n, p);
    assert m * (n * p) == m * n * p;
  }

  /** Replacing a field that fits below bit k keeps the value below 2^k. */
  lemma SetBitsBound(x: nat, off: nat, w: nat, v: nat, k: nat)
    requires off + w <= k && x < Pow2(k)
    ensures SetBits(x, off, w, v) < Pow2(k)
  {
    var m, n, p := Pow2(off), Pow2(w), Pow2(k - off - w);
    Pow2Add(off + w, k - off - w);
    Pow2Add(off, w);
    assert Pow2(k) == m * n * p;
    SplitBound(x, m, n, p, Low(x, off), Low(v, w));
    assert Shr(x, off + w) == x / (m * n);
  }
}
