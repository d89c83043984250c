/** Bitwise operations on register words, which the model keeps as natural
    numbers below 2^32 (`u32`). Each operation is defined one bit at a time,
    from the least significant bit up, and its contract says what it does to
    every bit `k`; `BitsDetermine` shows that the bits determine the number,
    so those contracts pin the results. */
module Bits {
  import opened Common

  const WORD_MAX: u32 := 0xFFFF_FFFF

  /** A bank of memory-mapped 32-bit registers, by byte offset. */
  type RegFile = map<nat, u32>

  /** The value of the register at `offset`; one never written reads 0. */
  function RegAt(regs: RegFile, offset: nat): u32
  {
    if offset in regs then regs[offset] else 0
  }

  /** The read-modify-write every driver's `modify_reg` performs: read the
      register and write back `(cur & !mask) | (value & mask)`. */
  function ModifyReg(regs: RegFile, offset: nat, mask: u32, value: u32): RegFile
  {
    regs[offset := Merge(RegAt(regs, offset), mask, value)]
  }

  function Pow2(k: nat): (p: nat)
    ensures p >= 1
  {
    if k == 0 then 1 else 2 * Pow2(k - 1)
  }

  /** Bit `k` of `x`. */
  predicate Bit(x: nat, k: nat)
  {
    if k == 0 then x % 2 == 1 else Bit(x / 2, k - 1)
  }

  /** Zero has no bit set. */
  lemma {:induction false} ZeroHasNoBits(k: nat)
    ensures !Bit(0, k)
  {
    if k > 0 {
      ZeroHasNoBits(k - 1);
    }
  }

  lemma NoBitsOfZero()
    ensures forall k: nat :: !Bit(0, k)
  {
    forall k: nat {
      ZeroHasNoBits(k);
    }
  }

  /** `2^j` has exactly bit `j` set. */
  lemma {:induction false} PowerBit(j: nat, k: nat)
    ensures Bit(Pow2(j), k) <==> j == k
  {
    if j == 0 {
      if k > 0 {
        ZeroHasNoBits(k - 1);
      }
    } else if k > 0 {
      PowerBit(j - 1, k - 1);
    }
  }

  /** Two numbers with the same bits are equal. */
  lemma {:induction false} BitsDetermine(a: nat, b: nat)
    requires forall k: nat :: Bit(a, k) == Bit(b, k)
    ensures a == b
    decreases a + b
  {
    assert Bit(a, 0) == Bit(b, 0);
    if a != 0 || b != 0 {
      forall k: nat
        ensures Bit(a / 2, k) == Bit(b / 2, k)
      {
        assert Bit(a, k + 1) == Bit(b, k + 1);
      }
      BitsDetermine(a / 2, b / 2);
    }
  }

  /** A number below `2^n` has no bit at `n` or above. */
  lemma {:induction false} NoBitsAbove(x: nat, n: nat, k: nat)
    requires x < Pow2(n) && k >= n
    ensures !Bit(x, k)
  {
    if x == 0 {
      ZeroHasNoBits(k);
    } else {
      assert n > 0;
      NoBitsAbove(x / 2, n - 1, k - 1);
    }
  }

  /** A number of at least `2^n` has a bit at `n` or above. */
  lemma {:induction false} SomeBitAbove(x: nat, n: nat) returns (k: nat)
    requires x >= Pow2(n)
    ensures k >= n && Bit(x, k)
  {
    if x % 2 == 1 && n == 0 {
      k := 0;
    } else {
      var j := SomeBitAbove(x / 2, if n == 0 then 0 else n - 1);
      k := j + 1;
    }
  }

  /** A number is below `2^n` exactly when it has no bit at `n` or above. */
  lemma {:induction false} BelowPow2(x: nat, n: nat)
    ensures x < Pow2(n) ==> forall k: nat :: k >= n ==> !Bit(x, k)
    ensures (forall k: nat :: k >= n ==> !Bit(x, k)) ==> x < Pow2(n)
  {
    if x < Pow2(n) {
      forall k: nat | k >= n
        ensures !Bit(x, k)
      {
        NoBitsAbove(x, n, k);
      }
    } else {
      var j := SomeBitAbove(x, n);
    }
  }

  /** The bits of `x` below position `n`: `x % 2^n`. */
  function Low(x: nat, n: nat): (r: nat)
    ensures forall k: nat :: Bit(r, k) == (k < n && Bit(x, k))
  {
    if n == 0 then NoBitsOfZero(); 0
    else
      var rest := Low(x / 2, n - 1);
      BitsOfDouble(x % 2 + 2 * rest, x % 2, rest);
      x % 2 + 2 * rest
  }

  /** The bits of `r == b + 2 * rest`: `b` at the bottom, then those of
      `rest`. */
  lemma BitsOfDouble(r: nat, b: nat, rest: nat)
    requires b < 2 && r == b + 2 * rest
    ensures forall k: nat :: Bit(r, k) == if k == 0 then b == 1 else Bit(rest, k - 1)
  {
    forall k: nat
      ensures Bit(r, k) == if k == 0 then b == 1 else Bit(rest, k - 1)
    {
      if k > 0 {
        assert r / 2 == rest;
      }
    }
  }

  /** `a | b`. */
  function Or(a: nat, b: nat): (r: nat)
    ensures forall k: nat :: Bit(r, k) == (Bit(a, k) || Bit(b, k))
    decreases a + b
  {
    if a == 0 && b == 0 then 0
    else (if a % 2 == 1 || b % 2 == 1 then 1 else 0) + 2 * Or(a / 2, b / 2)
  }

  /** `a & b`. */
  function And(a: nat, b: nat): (r: nat)
    ensures forall k: nat :: Bit(r, k) == (Bit(a, k) && Bit(b, k))
    decreases a + b
  {
    if a == 0 || b == 0 then NoBitsOfZero(); 0
    else (if a % 2 == 1 && b % 2 == 1 then 1 else 0) + 2 * And(a / 2, b / 2)
  }

  /** `a & ~b`. */
  function AndNot(a: nat, b: nat): (r: nat)
    ensures forall k: nat :: Bit(r, k) == (Bit(a, k) && !Bit(b, k))
    decreases a + b
  {
    if a == 0 then NoBitsOfZero(); 0
    else (if a % 2 == 1 && b % 2 == 0 then 1 else 0) + 2 * AndNot(a / 2, b / 2)
  }

  /** `v >> s`. */
  function Shr(v: nat, s: nat): (r: nat)
    ensures forall k: nat :: Bit(r, k) == Bit(v, k + s)
  {
    if s == 0 then v else Shr(v / 2, s - 1)
  }

  /** `v << s` without truncation. */
  function Shl(v: nat, s: nat): (r: nat)
    ensures forall k: nat :: Bit(r, k) == (k >= s && Bit(v, k - s))
  {
    if s == 0 then v
    else
      var h := Shl(v, s - 1);
      assert forall k: nat :: Bit(2 * h, k) == (k > 0 && Bit(h, k - 1));
      2 * h
  }

  /** Every bit of a number below `2^n` lies below `n`. */
  lemma WordBits(x: nat, n: nat, k: nat)
    requires x < Pow2(n) && Bit(x, k)
    ensures k < n
  {
    BelowPow2(x, n);
  }

  lemma {:induction false} Pow2Word()
    ensures Pow2(32) == U32_MOD
  {
    assert Pow2(8) == 0x100;
    assert Pow2(12) == 0x1000;
    assert Pow2(16) == 0x1_0000;
    assert Pow2(20) == 0x10_0000;
    assert Pow2(24) == 0x100_0000;
    assert Pow2(28) == 0x1000_0000;
  }

  /** A number whose bits all lie below 32 is a 32-bit word. */
  lemma IsWord(x: nat)
    requires forall k: nat :: k >= 32 ==> !Bit(x, k)
    ensures x < U32_MOD
  {
    Pow2Word();
    BelowPow2(x, 32);
  }

  /** A 32-bit word has no bit at 32 or above. */
  lemma WordHasLowBits(x: u32)
    ensures forall k: nat :: k >= 32 ==> !Bit(x, k)
  {
    Pow2Word();
    BelowPow2(x, 32);
  }

  // ------------------------------------------------------------- on words

  /** `1 << k`: the word with only bit `k` set. */
  function BitMask(k: nat): (m: u32)
    requires k < 32
    ensures forall j: nat :: Bit(m, j) == (j == k)
  {
    forall j: nat
      ensures Bit(Pow2(k), j) == (j == k)
    {
      PowerBit(k, j);
    }
    IsWord(Pow2(k));
    Pow2(k)
  }

  /** `w | mask`: the bits of `mask` set, the others as in `w`. */
  function SetMask(w: u32, mask: u32): (r: u32)
    ensures forall k: nat :: Bit(r, k) == (Bit(mask, k) || Bit(w, k))
  {
    WordHasLowBits(w);
    WordHasLowBits(mask);
    IsWord(Or(w, mask));
    Or(w, mask)
  }

  /** `w & ~mask`: the bits of `mask` cleared, the others as in `w`. */
  function ClearMask(w: u32, mask: u32): (r: u32)
    ensures forall k: nat :: Bit(r, k) == (!Bit(mask, k) && Bit(w, k))
  {
    WordHasLowBits(w);
    IsWord(AndNot(w, mask));
    AndNot(w, mask)
  }

  /** `w & mask`: the bits of `w` inside `mask`. */
  function Mask(w: u32, mask: u32): (r: u32)
    ensures forall k: nat :: Bit(r, k) == (Bit(mask, k) && Bit(w, k))
  {
    WordHasLowBits(w);
    IsWord(And(w, mask));
    And(w, mask)
  }

  /** `(w & ~mask) | (v & mask)`: the bits of `mask` taken from `v`, the
      others from `w`. */
  function Merge(w: u32, mask: u32, v: u32): (r: u32)
    ensures forall k: nat :: Bit(r, k) == if Bit(mask, k) then Bit(v, k) else Bit(w, k)
  {
    SetMask(ClearMask(w, mask), Mask(v, mask))
  }

  /** `v << shift` on a 32-bit word: the bits pushed past bit 31 are lost. */
  function ShiftLeft(v: u32, shift: nat): (r: u32)
    requires shift < 32
    ensures forall k: nat :: Bit(r, k) == (shift <= k < 32 && Bit(v, k - shift))
  {
    Pow2Word();
    BelowPow2(Low(Shl(v, shift), 32), 32);
    Low(Shl(v, shift), 32)
  }

  /** `v >> shift` on a 32-bit word. */
  function ShiftRight(v: u32, shift: nat): (r: u32)
    requires shift < 32
    ensures forall k: nat :: Bit(r, k) == Bit(v, k + shift)
  {
    WordHasLowBits(v);
    IsWord(Shr(v, shift));
    Shr(v, shift)
  }

  /** `(w & mask) >> shift`: the field `mask` of `w`, moved down to bit 0. */
  function Extract(w: u32, mask: u32, shift: nat): (r: u32)
    requires shift < 32
    ensures forall k: nat :: Bit(r, k) == (Bit(mask, k + shift) && Bit(w, k + shift))
  {
    ShiftRight(Mask(w, mask), shift)
  }

  /** `(w & ~mask) | ((v << shift) & mask)`: `v` moved up by `shift` and
      written into the field `mask`, the rest of `w` kept. */
  function Insert(w: u32, mask: u32, shift: nat, v: u32): (r: u32)
    requires shift < 32
    ensures forall k: nat :: Bit(r, k) == if Bit(mask, k) then shift <= k && Bit(v, k - shift) else Bit(w, k)
  {
    WordHasLowBits(mask);
    Merge(w, mask, ShiftLeft(v, shift))
  }

  // ------------------------------------------------------------- laws

  /** Setting is merging all ones; clearing is merging zero. */
  lemma MergeExtremes(w: u32, mask: u32)
    ensures Merge(w, mask, WORD_MAX) == SetMask(w, mask)
    ensures Merge(w, mask, 0) == ClearMask(w, mask)
  {
    AllOnes();
    NoBitsOfZero();
    WordHasLowBits(mask);
    BitsDetermine(Merge(w, mask, WORD_MAX), SetMask(w, mask));
    BitsDetermine(Merge(w, mask, 0), ClearMask(w, mask));
  }

  /** `0xFFFF_FFFF` has every bit below 32 set. */
  lemma AllOnes()
    ensures forall k: nat :: k < 32 ==> Bit(WORD_MAX, k)
  {
    Pow2Word();
    forall k: nat | k < 32
      ensures Bit(WORD_MAX, k)
    {
      LowOnes(32, k);
    }
  }

  lemma {:induction false} LowOnes(n: nat, k: nat)
    requires k < n
    ensures Bit(Pow2(n) - 1, k)
  {
    if k > 0 {
      LowOnes(n - 1, k - 1);
      assert (Pow2(n) - 1) / 2 == Pow2(n - 1) - 1;
    }
  }

  /** Merging the same value twice is merging it once. */
  lemma MergeIdempotent(w: u32, mask: u32, v: u32)
    ensures Merge(Merge(w, mask, v), mask, v) == Merge(w, mask, v)
  {
    BitsDetermine(Merge(Merge(w, mask, v), mask, v), Merge(w, mask, v));
  }

  /** Reading back a field just written gives the written value cut to the
      width of the field, whatever the word held before. */
  lemma InsertExtract(w: u32, mask: u32, shift: nat, v: u32)
    requires shift < 32
    ensures Extract(Insert(w, mask, shift, v), mask, shift) == Mask(v, ShiftRight(mask, shift))
  {
    BitsDetermine(Extract(Insert(w, mask, shift, v), mask, shift), Mask(v, ShiftRight(mask, shift)));
  }

  /** Writing back a field just read leaves the word as it was, when the
      field has no bit below `shift`. */
  lemma ExtractInsert(w: u32, mask: u32, shift: nat)
    requires shift < 32
    requires forall k: nat :: k < shift ==> !Bit(mask, k)
    ensures Insert(w, mask, shift, Extract(w, mask, shift)) == w
  {
    BitsDetermine(Insert(w, mask, shift, Extract(w, mask, shift)), w);
  }

  /** A register tests non-zero under a one-bit mask exactly when that bit
      is set. */
  lemma TestBit(w: u32, k: nat)
    requires k < 32
    ensures (Mask(w, BitMask(k)) != 0) == Bit(w, k)
  {
    NoBitsOfZero();
    if !Bit(w, k) {
      BitsDetermine(Mask(w, BitMask(k)), 0);
    }
  }

  /** `2^n - 1` is a run of exactly `n` low one bits. */
  lemma OnesBits(n: nat, k: nat)
    ensures Bit(Pow2(n) - 1, k) == (k < n)
  {
    if k < n {
      LowOnes(n, k);
    } else {
      NoBitsAbove(Pow2(n) - 1, n, k);
    }
  }

  /** The all-ones field masks the drivers write as literals. */
  lemma SmallMasks()
    ensures forall k: nat :: Bit(1, k) == (k < 1)
    ensures forall k: nat :: Bit(3, k) == (k < 2)
    ensures forall k: nat :: Bit(7, k) == (k < 3)
    ensures forall k: nat :: Bit(0xF, k) == (k < 4)
  {
    assert Pow2(1) == 2 && Pow2(2) == 4 && Pow2(3) == 8 && Pow2(4) == 16;
    forall k: nat
      ensures Bit(1, k) == (k < 1) && Bit(3, k) == (k < 2)
      ensures Bit(7, k) == (k < 3) && Bit(0xF, k) == (k < 4)
    {
      OnesBits(1, k);
      OnesBits(2, k);
      OnesBits(3, k);
      OnesBits(4, k);
    }
  }

  /** Merging `v << shift` under the mask `ones << shift`, where `ones` is a
      run of `width` low bits, replaces bits `shift` to `shift + width - 1`
      by the low bits of `v` and keeps every other bit. */
  lemma FieldUpdate(w: u32, ones: u32, width: nat, shift: nat, v: u32)
    requires 0 < width && shift + width <= 32
    requires forall k: nat :: Bit(ones, k) == (k < width)
    ensures forall k: nat ::
              Bit(Merge(w, ShiftLeft(ones, shift), ShiftLeft(v, shift)), k) ==
              if shift <= k < shift + width then Bit(v, k - shift) else Bit(w, k)
  {
  }

  /** A value that fits its field reads back unchanged after it is written. */
  lemma FieldRoundTrip(w: u32, ones: u32, width: nat, shift: nat, v: u32)
    requires 0 < width && shift + width <= 32
    requires forall k: nat :: Bit(ones, k) == (k < width)
    requires v < Pow2(width)
    ensures Extract(Merge(w, ShiftLeft(ones, shift), ShiftLeft(v, shift)), ShiftLeft(ones, shift), shift) == v
  {
    var r := Merge(w, ShiftLeft(ones, shift), ShiftLeft(v, shift));
    BelowPow2(v, width);
    FieldUpdate(w, ones, width, shift, v);
    BitsDetermine(Extract(r, ShiftLeft(ones, shift), shift), v);
  }

  /** OR-ing a value that fits its field into a word whose field was just
      cleared is the same as merging it under the field's mask. */
  lemma OrIntoClearedField(w: u32, ones: u32, width: nat, shift: nat, v: u32)
    requires 0 < width && shift + width <= 32
    requires forall k: nat :: Bit(ones, k) == (k < width)
    requires v < Pow2(width)
    ensures SetMask(ClearMask(w, ShiftLeft(ones, shift)), ShiftLeft(v, shift)) ==
            Merge(w, ShiftLeft(ones, shift), ShiftLeft(v, shift))
  {
    BelowPow2(v, width);
    BitsDetermine(SetMask(ClearMask(w, ShiftLeft(ones, shift)), ShiftLeft(v, shift)),
                  Merge(w, ShiftLeft(ones, shift), ShiftLeft(v, shift)));
  }

  // ------------------------------------------------------------- arithmetic meaning

  /** Euclidean division is determined by its quotient and remainder. */
  lemma DivUnique(v: nat, d: nat, q: nat, r: nat)
    requires d > 0 && v == d * q + r && r < d
    ensures v / d == q && v % d == r
  {
    var q', r' := v / d, v % d;
    assert d * q' + r' == d * q + r;
    assert d * (q - q') == r' - r;
    MulAtLeast(d, q - q');
  }

  /** Dividing by a positive number never increases. */
  lemma DivAtMost(p: nat, d: nat)
    requires d > 0
    ensures p / d <= p
  {
    var q, r := p / d, p % d;
    assert p == d * q + r;
    if q > 0 {
      MulAtLeast(q, d);
      assert d * q >= q;
    }
  }

  lemma MulAtLeast(d: int, x: int)
    requires d > 0
    ensures x >= 1 ==> d * x >= d
    ensures x <= -1 ==> d * x <= -d
  {
  }

  lemma DivDiv(v: nat, a: nat, b: nat)
    requires a > 0 && b > 0
    ensures v / a / b == v / (a * b)
  {
    ProductIsNat(a, b);
    var q: nat := v / a;
    var q2: nat := q / b;
    DivDivStep(v, a, b, q, v % a, q2, q % b);
  }

  /** Dividing by `a` and then by `b` leaves the quotient by `a * b`,
      stated on the two quotients and remainders. */
  lemma DivDivStep(v: nat, a: nat, b: nat, q: nat, r: nat, q2: nat, r2: nat)
    requires a > 0 && b > 0 && r < a && r2 < b
    requires v == a * q + r && q == b * q2 + r2
    ensures v / (a * b) == q2
  {
    ProductIsNat(a, b);
    ProductIsNat(a, r2);
    MulSplit(a, b, q2, r2);
    MulBelow(a, b, r2);
    DivUnique(v, a * b, q2, a * r2 + r);
  }

  lemma MulSplit(a: nat, b: nat, q: nat, r: nat)
    ensures a * (b * q + r) == (a * b) * q + a * r
  {
  }

  lemma MulBelow(a: nat, b: nat, r: nat)
    requires r < b
    ensures a * r + a <= a * b
  {
    MulMonotone(a, r + 1, b);
  }

  lemma ProductIsNat(a: nat, b: nat)
    ensures a * b >= 0
    ensures a > 0 && b > 0 ==> a * b > 0
  {
  }

  lemma MulMonotone(a: nat, x: nat, y: nat)
    requires x <= y
    ensures a * x <= a * y
  {
  }

  lemma ModDouble(x: nat, m: nat)
    requires m > 0
    ensures x % (2 * m) == x % 2 + 2 * ((x / 2) % m)
  {
    var h, e := x / 2, x % 2;
    var q, t := h / m, h % m;
    assert x == 2 * h + e;
    assert h == m * q + t;
    assert x == (2 * m) * q + (2 * t + e);
    DivUnique(x, 2 * m, q, 2 * t + e);
  }

  /** `v >> s` is `v / 2^s`. */
  lemma {:induction false} ShrIsDiv(v: nat, s: nat)
    ensures Shr(v, s) == v / Pow2(s)
  {
    if s > 0 {
      ShrIsDiv(v / 2, s - 1);
      DivDiv(v, 2, Pow2(s - 1));
    }
  }

  /** `v << s` is `v * 2^s`. */
  lemma {:induction false} ShlIsMul(v: nat, s: nat)
    ensures Shl(v, s) == v * Pow2(s)
  {
    if s > 0 {
      ShlIsMul(v, s - 1);
    }
  }

  /** The bits of `x` below `n` are `x % 2^n`. */
  lemma {:induction false} LowIsMod(x: nat, n: nat)
    ensures Low(x, n) == x % Pow2(n)
  {
    if n > 0 {
      LowIsMod(x / 2, n - 1);
      ModDouble(x, Pow2(n - 1));
    }
  }

  /** Masking with `2^n - 1` keeps the remainder modulo `2^n`. */
  lemma MaskLowOnes(w: u32, n: nat)
    requires Pow2(n) - 1 < U32_MOD
    ensures Mask(w, Pow2(n) - 1) == w % Pow2(n)
  {
    forall k: nat
      ensures Bit(Mask(w, Pow2(n) - 1), k) == Bit(Low(w, n), k)
    {
      OnesBits(n, k);
    }
    BitsDetermine(Mask(w, Pow2(n) - 1), Low(w, n));
    LowIsMod(w, n);
  }

  /** `v >> shift` on a word is `v / 2^shift`. */
  lemma ShiftRightIsDiv(v: u32, shift: nat)
    requires shift < 32
    ensures ShiftRight(v, shift) == v / Pow2(shift)
  {
    ShrIsDiv(v, shift);
  }

  /** `v << shift` on a word is `v * 2^shift` cut to 32 bits. */
  lemma ShiftLeftIsMul(v: u32, shift: nat)
    requires shift < 32
    ensures ShiftLeft(v, shift) == v * Pow2(shift) % U32_MOD
  {
    ShlIsMul(v, shift);
    Pow2Word();
    BitsDetermine(ShiftLeft(v, shift), Low(Shl(v, shift), 32));
    LowIsMod(Shl(v, shift), 32);
  }

  /** OR of numbers with no bit in common is their sum. */
  lemma {:induction false} OrDisjoint(a: nat, b: nat)
    requires forall k: nat :: !(Bit(a, k) && Bit(b, k))
    ensures Or(a, b) == a + b
    decreases a + b
  {
    if a != 0 || b != 0 {
      assert !(Bit(a, 0) && Bit(b, 0));
      forall k: nat
        ensures !(Bit(a / 2, k) && Bit(b / 2, k))
      {
        assert Bit(a, k + 1) == Bit(a / 2, k);
        assert Bit(b, k + 1) == Bit(b / 2, k);
      }
      OrDisjoint(a / 2, b / 2);
    }
  }
}
