/** Bitmaps over arrays of words (src/bitmap.c, src/bitmap.h). */
module Bitmap {
  import opened Arith
  import opened Words
  import opened Bitops

  /** `BITMAP_LAST_WORD_MASK`: the bits of the last word of a bitmap of `nbits` bits. */
  function LastWordMask(nbits: nat): Word {
    if nbits % 64 != 0 then Pred(Shl(One(), nbits % 64)) else Ones()
  }

  lemma LastWordMaskBits(nbits: nat)
    ensures forall i :: 0 <= i < 64 ==> LastWordMask(nbits)[i] == (nbits % 64 == 0 || i < nbits % 64)
  {
    if nbits % 64 != 0 {
      MaskBits(nbits % 64);
    }
  }

  // ----- range updates -----

  /** `now` is `was` with exactly the bits of `[from, to)` given `value`. */
  ghost predicate Updated(was: seq<Word>, now: seq<Word>, from: nat, to: nat, value: bool) {
    && |now| == |was|
    && forall i :: 0 <= i < 64 * |was| ==> BitAt(now, i) == if from <= i < to then value else BitAt(was, i)
  }

  function Masked(w: Word, mask: Word, value: bool): Word {
    if value then Or(w, mask) else And(w, Not(mask))
  }

  /** Masking the bits of `[from, to)` within word `p` extends the update by that word. */
  lemma UpdateWord(was: seq<Word>, now: seq<Word>, from: nat, mid: nat, to: nat, value: bool, p: nat, mask: Word)
    requires Updated(was, now, from, mid, value) && from <= mid <= to
    requires p < |was| && 64 * p <= mid && to <= 64 * p + 64
    requires forall i :: 0 <= i < 64 ==> mask[i] == (mid <= 64 * p + i < to)
    ensures Updated(was, now[p := Masked(now[p], mask, value)], from, to, value)
  {
    var word := Masked(now[p], mask, value);
    var next := now[p := word];
    forall i | 0 <= i < 64 * |was|
      ensures BitAt(next, i) == if from <= i < to then value else BitAt(was, i)
    {
      if i / 64 == p {
        assert i == 64 * p + i % 64;
        assert word[i % 64] == if mask[i % 64] then value else now[p][i % 64];
        assert BitAt(now, i) == now[p][i % 64];
      } else {
        assert BitAt(next, i) == BitAt(now, i);
      }
    }
  }

  method BitmapSet(bits: array<Word>, start: nat, nr0: nat)
    requires start + nr0 <= 64 * bits.Length
    modifies bits
    ensures Updated(old(bits[..]), bits[..], start, start + nr0, true)
  {
    ghost var was := bits[..];
    var p := start / 64;
    var size := start + nr0;
    var nr := nr0;
    var bitsToSet := 64 - start % 64;
    var mask := Shl(Ones(), start % 64);
    ghost var mid := start;
    while nr - bitsToSet >= 0
      invariant 0 < bitsToSet <= 64 && 0 <= nr && mid + nr == size && mid + bitsToSet == 64 * p + 64
      invariant start <= mid && Updated(was, bits[..], start, mid, true)
      invariant forall i :: 0 <= i < 64 ==> mask[i] == (mid <= 64 * p + i)
    {
      UpdateWord(was, bits[..], start, mid, mid + bitsToSet, true, p, mask);
      ghost var now := bits[..];
      bits[p] := Or(bits[p], mask);
      assert bits[..] == now[p := Or(now[p], mask)];
      nr := nr - bitsToSet;
      mid := mid + bitsToSet;
      bitsToSet := 64;
      mask := Ones();
      p := p + 1;
    }
    if nr != 0 {
      LastWordMaskBits(size);
      mask := And(mask, LastWordMask(size));
      UpdateWord(was, bits[..], start, mid, size, true, p, mask);
      ghost var now := bits[..];
      bits[p] := Or(bits[p], mask);
      assert bits[..] == now[p := Or(now[p], mask)];
    }
  }

  method BitmapClear(bits: array<Word>, start: nat, nr0: nat)
    requires start + nr0 <= 64 * bits.Length
    modifies bits
    ensures Updated(old(bits[..]), bits[..], start, start + nr0, false)
  {
    ghost var was := bits[..];
    var p := start / 64;
    var size := start + nr0;
    var nr := nr0;
    var bitsToClear := 64 - start % 64;
    var mask := Shl(Ones(), start % 64);
    ghost var mid := start;
    while nr - bitsToClear >= 0
      invariant 0 < bitsToClear <= 64 && 0 <= nr && mid + nr == size && mid + bitsToClear == 64 * p + 64
      invariant start <= mid && Updated(was, bits[..], start, mid, false)
      invariant forall i :: 0 <= i < 64 ==> mask[i] == (mid <= 64 * p + i)
    {
      UpdateWord(was, bits[..], start, mid, mid + bitsToClear, false, p, mask);
      ghost var now := bits[..];
      bits[p] := And(bits[p], Not(mask));
      assert bits[..] == now[p := And(now[p], Not(mask))];
      nr := nr - bitsToClear;
      mid := mid + bitsToClear;
      bitsToClear := 64;
      mask := Ones();
      p := p + 1;
    }
    if nr != 0 {
      LastWordMaskBits(size);
      mask := And(mask, LastWordMask(size));
      UpdateWord(was, bits[..], start, mid, size, false, p, mask);
      ghost var now := bits[..];
      bits[p] := And(bits[p], Not(mask));
      assert bits[..] == now[p := And(now[p], Not(mask))];
    }
  }

  // ----- searching for an aligned run of clear bits -----

  /** `unsigned long` sums wrap around at 2^64. */
  const WRAP := 0x1_0000_0000_0000_0000

  lemma WrapIsPow2()
    ensures WRAP == Pow2(64)
  {
    Pow2Add(2, 2);
    Pow2Add(4, 4);
    Pow2Add(8, 8);
    Pow2Add(16, 16);
    Pow2Add(32, 32);
  }

  /** 2^63 is aligned to every smaller power of two. */
  lemma HalfWrapAligned(mask: nat, k: nat)
    requires k <= 63 && mask + 1 == Pow2(k)
    ensures Aligned(WRAP / 2, mask)
  {
    WrapIsPow2();
    assert Pow2(64) == 2 * Pow2(63);
    Pow2Add(63 - k, k);
    DivisionIsUnique(Pow2(63), Pow2(k), Pow2(63 - k), 0);
  }

  /** Neither sum of the search wraps around: the end of the bitmap, rounded up, leaves room for the area. */
  ghost predicate NoWrap(size: nat, nr: nat, mask: nat) {
    exists m: nat :: size <= m && Aligned(m, mask) && m + nr < WRAP
  }

  /** That is so for every bitmap of up to 2^63 bits. */
  lemma HalfNoWrap(size: nat, nr: nat, mask: nat, k: nat)
    requires size <= WRAP / 2 && nr < 0x1_0000_0000 && k <= 63 && mask + 1 == Pow2(k)
    ensures NoWrap(size, nr, mask)
  {
    HalfWrapAligned(mask, k);
  }

  lemma WrapAligned(mask: nat, k: nat)
    requires k <= 64 && mask + 1 == Pow2(k)
    ensures Aligned(WRAP, mask)
  {
    WrapIsPow2();
    Pow2Add(64 - k, k);
    DivisionIsUnique(Pow2(64), Pow2(k), Pow2(64 - k), 0);
  }

  /** An aligned number below 2^64 is followed by a whole unit below it. */
  lemma AlignedGap(m: nat, mask: nat, k: nat)
    requires k <= 64 && mask + 1 == Pow2(k) && Aligned(m, mask) && m < WRAP
    ensures m + mask < WRAP
  {
    WrapAligned(mask, k);
    DivMod(m, mask + 1);
    DivMod(WRAP, mask + 1);
    if m / (mask + 1) >= WRAP / (mask + 1) {
      MulMonotone(WRAP / (mask + 1), m / (mask + 1), mask + 1);
    } else {
      MulGap(m / (mask + 1), WRAP / (mask + 1), mask + 1);
    }
  }

  /** `ALIGN_MASK`: `(x + mask) & ~mask` in 64 bits. */
  function AlignMask(x: nat, mask: nat): nat {
    Value(And(Bits(x + mask, 64), Not(Bits(mask, 64))))
  }

  predicate Aligned(a: nat, mask: nat) {
    a % (mask + 1) == 0
  }

  /** With a mask of the form 2^k - 1 and no wrap-around, the least multiple of 2^k at or after `x`. */
  lemma AlignMaskRoundsUp(x: nat, mask: nat, k: nat)
    requires mask + 1 == Pow2(k) && x + mask < WRAP
    ensures x <= AlignMask(x, mask) <= x + mask && Aligned(AlignMask(x, mask), mask)
    ensures forall a: nat :: x <= a && Aligned(a, mask) ==> AlignMask(x, mask) <= a
  {
    AlignMaskIsRoundDown(x, mask, k);
    RoundDownIsMultiple(x, mask);
    forall a: nat | x <= a && Aligned(a, mask) ensures AlignMask(x, mask) <= a {
      RoundDownIsLeast(x, mask, a);
    }
  }

  lemma AlignMaskIsRoundDown(x: nat, mask: nat, k: nat)
    requires mask + 1 == Pow2(k) && x + mask < WRAP
    ensures AlignMask(x, mask) == x + mask - (x + mask) % (mask + 1)
  {
    var s := Bits(x + mask, 64);
    var t := And(s, Not(Bits(mask, 64)));
    forall i | 0 <= i < 64 ensures t[i] == (k <= i && s[i]) {
      BitsOfMask(k, 64, i);
    }
    ClearLow(s, t, k);
    ValueOfBits(x + mask, 64);
    WrapIsPow2();
    DivisionIsUnique(x + mask, Pow2(64), 0, x + mask);
  }

  lemma RoundDownIsMultiple(x: nat, mask: nat)
    ensures x <= x + mask - (x + mask) % (mask + 1)
    ensures Aligned(x + mask - (x + mask) % (mask + 1), mask)
  {
    var d := mask + 1;
    DivMod(x + mask, d);
    DivisionIsUnique(x + mask - (x + mask) % d, d, (x + mask) / d, 0);
  }

  lemma RoundDownIsLeast(x: nat, mask: nat, a: nat)
    requires x <= a && Aligned(a, mask)
    ensures x + mask - (x + mask) % (mask + 1) <= a
  {
    var d := mask + 1;
    DivMod(x + mask, d);
    DivMod(a, d);
    if a / d < (x + mask) / d {
      MulGap(a / d, (x + mask) / d, d);
    } else if (x + mask) / d < a / d {
      MulGap((x + mask) / d, a / d, d);
    }
  }

  /** `r` is the least aligned number at or after `x`. */
  ghost predicate IsAlignedUp(x: nat, mask: nat, r: nat) {
    x <= r <= x + mask && Aligned(r, mask) && forall a: nat :: x <= a && Aligned(a, mask) ==> r <= a
  }

  method AlignUp(x: nat, mask: nat, ghost k: nat) returns (r: nat)
    requires mask + 1 == Pow2(k) && x + mask < WRAP
    ensures IsAlignedUp(x, mask, r)
  {
    AlignMaskRoundsUp(x, mask, k);
    r := AlignMask(x, mask);
  }

  /** `nr` clear bits from `a` on, inside the first `size`, at or after `start` and aligned. */
  ghost predicate ZeroArea(bits: seq<Word>, size: nat, start: nat, nr: nat, alignMask: nat, a: nat)
    requires size <= 64 * |bits|
  {
    start <= a && a + nr <= size && Aligned(a, alignMask) && NoneIn(bits, a, a + nr, true)
  }

  /** Every such area starts at or after `low`. */
  ghost predicate AreasFrom(bits: seq<Word>, size: nat, start: nat, nr: nat, alignMask: nat, low: nat)
    requires size <= 64 * |bits|
  {
    forall a: nat :: ZeroArea(bits, size, start, nr, alignMask, a) ==> low <= a
  }

  /** No area starts before the first clear bit, rounded up. */
  lemma AreasAfterZero(bits: seq<Word>, size: nat, start0: nat, start: nat, nr: nat, alignMask: nat, z: nat, index: nat)
    requires size <= 64 * |bits| && 1 <= nr && start0 <= start && IsNext(bits, size, start, false, z)
    requires AreasFrom(bits, size, start0, nr, alignMask, start)
    requires IsAlignedUp(z, alignMask, index)
    ensures AreasFrom(bits, size, start0, nr, alignMask, index)
  {
    forall a: nat | ZeroArea(bits, size, start0, nr, alignMask, a) ensures index <= a {
      assert start <= a && !BitAt(bits, a);
    }
  }

  /** No area that starts at or before a set bit reaches past it. */
  lemma AreasAfterSetBit(bits: seq<Word>, size: nat, start0: nat, nr: nat, alignMask: nat, index: nat, i: nat)
    requires size <= 64 * |bits| && index <= i < index + nr <= size && BitAt(bits, i)
    requires AreasFrom(bits, size, start0, nr, alignMask, index)
    ensures AreasFrom(bits, size, start0, nr, alignMask, i + 1)
  {
    forall a: nat | ZeroArea(bits, size, start0, nr, alignMask, a) ensures i + 1 <= a {
      assert index <= a;
    }
  }

  /** The first lines of the loop: the next clear bit, rounded up. */
  method NextAligned(bits: array<Word>, size: nat, ghost start0: nat, start: nat, nr: nat, alignMask: nat, ghost k: nat)
    returns (ghost z: nat, index: nat)
    requires size <= 64 * bits.Length && NoWrap(size, nr, alignMask)
    requires k <= 64 && alignMask + 1 == Pow2(k)
    requires start0 <= start && AreasFrom(bits[..], size, start0, nr, alignMask, start)
    ensures IsNext(bits[..], size, start, false, z) && IsAlignedUp(z, alignMask, index)
    ensures index + nr < WRAP
    ensures 1 <= nr ==> AreasFrom(bits[..], size, start0, nr, alignMask, index)
  {
    var zero := FindNextZeroBit(bits, size, start);
    z := zero;
    ghost var m: nat :| size <= m && Aligned(m, alignMask) && m + nr < WRAP;
    AlignedGap(m, alignMask, k);
    index := AlignUp(zero, alignMask, k);
    if 1 <= nr {
      AreasAfterZero(bits[..], size, start0, start, nr, alignMask, z, index);
    }
  }

  /** `r` is the least area, or lies beyond `size` because there is none. */
  ghost predicate IsLeastArea(bits: seq<Word>, size: nat, start: nat, nr: nat, alignMask: nat, r: nat)
    requires size <= 64 * |bits|
  {
    && AreasFrom(bits, size, start, nr, alignMask, r)
    && (r <= size ==> ZeroArea(bits, size, start, nr, alignMask, r))
  }

  lemma NoAreaFits(bits: seq<Word>, size: nat, start: nat, nr: nat, alignMask: nat, index: nat)
    requires size <= 64 * |bits| && size < index + nr && AreasFrom(bits, size, start, nr, alignMask, index)
    ensures IsLeastArea(bits, size, start, nr, alignMask, index + nr)
  {
  }

  /** `bitmap_find_next_zero_area`, where no sum wraps around */
  method FindNextZeroArea(bits: array<Word>, size: nat, start0: nat, nr: nat, alignMask: nat, ghost k: nat)
    returns (r: nat)
    requires size <= 64 * bits.Length && NoWrap(size, nr, alignMask)
    requires k <= 64 && alignMask + 1 == Pow2(k)
    ensures 1 <= nr ==> IsLeastArea(bits[..], size, start0, nr, alignMask, r)
    ensures nr == 0 ==> exists z: nat :: IsNext(bits[..], size, start0, false, z) && IsAlignedUp(z, alignMask, r)
  {
    hide NoWrap, Pow2, BitAt;
    ghost var s := bits[..];
    var start := start0;
    while true
      invariant start0 <= start && (start == start0 || (1 <= nr && start <= size))
      invariant AreasFrom(s, size, start0, nr, alignMask, start)
      decreases size - start
    {
      ghost var z;
      var index;
      z, index := NextAligned(bits, size, start0, start, nr, alignMask, k);
      var end := (index + nr) % WRAP;
      assert end == index + nr;
      if end > size {
        if 1 <= nr {
          NoAreaFits(s, size, start0, nr, alignMask, index);
        }
        return end;
      }
      assert start0 <= index || size <= start;
      var i := FindNextBit(bits, end, index);
      if i < end {
        AreasAfterSetBit(s, size, start0, nr, alignMask, index, i);
        start := i + 1;
      } else {
        if 1 <= nr {
          assert ZeroArea(s, size, start0, nr, alignMask, index);
        }
        return index;
      }
    }
  }

  /** So the result is within `size` exactly when an area exists. */
  lemma AreaExists(bits: seq<Word>, size: nat, start: nat, nr: nat, alignMask: nat, r: nat)
    requires size <= 64 * |bits| && IsLeastArea(bits, size, start, nr, alignMask, r)
    ensures r <= size <==> exists a: nat :: ZeroArea(bits, size, start, nr, alignMask, a)
  {
  }

  // ----- tests of a whole bitmap -----

  /** The first `nbits` bits satisfy `p`, a property of one bit of each of two bitmaps. */
  ghost predicate AllBits(a: seq<Word>, b: seq<Word>, nbits: nat, p: (bool, bool) -> bool)
    requires nbits <= 64 * |a| && nbits <= 64 * |b|
  {
    forall i :: 0 <= i < nbits ==> p(BitAt(a, i), BitAt(b, i))
  }

  ghost predicate AllInWord(a: Word, b: Word, n: nat, p: (bool, bool) -> bool)
    requires n <= 64
  {
    forall i :: 0 <= i < n ==> p(a[i], b[i])
  }

  /** A test of `64 * k` bits goes on word by word, the last one possibly partial. */
  lemma AllBitsStep(a: seq<Word>, b: seq<Word>, k: nat, n: nat, p: (bool, bool) -> bool)
    requires k < |a| && k < |b| && n <= 64
    ensures AllBits(a, b, 64 * k + n, p) <==> AllBits(a, b, 64 * k, p) && AllInWord(a[k], b[k], n, p)
  {
    WordBits(a, k);
    WordBits(b, k);
    if AllBits(a, b, 64 * k + n, p) {
      forall i | 0 <= i < n ensures p(a[k][i], b[k][i]) {
        assert p(BitAt(a, 64 * k + i), BitAt(b, 64 * k + i));
      }
    }
    if AllBits(a, b, 64 * k, p) && AllInWord(a[k], b[k], n, p) {
      forall i | 0 <= i < 64 * k + n ensures p(BitAt(a, i), BitAt(b, i)) {
        if 64 * k <= i {
          assert p(a[k][i - 64 * k], b[k][i - 64 * k]);
        }
      }
    }
  }

  ghost const CLEAR: (bool, bool) -> bool := (x, y) => !x
  ghost const SET: (bool, bool) -> bool := (x, y) => x
  ghost const SAME: (bool, bool) -> bool := (x, y) => x == y
  ghost const APART: (bool, bool) -> bool := (x, y) => !(x && y)

  /** What each word test of the source says about the low `n` bits, `mask` having exactly those. */
  lemma WordTests(a: Word, b: Word, mask: Word, n: nat)
    requires n <= 64 && forall i :: 0 <= i < 64 ==> mask[i] == (i < n)
    ensures And(a, mask) == Zero() <==> AllInWord(a, b, n, CLEAR)
    ensures And(Not(a), mask) == Zero() <==> AllInWord(a, b, n, SET)
    ensures And(Xor(a, b), mask) == Zero() <==> AllInWord(a, b, n, SAME)
    ensures And(And(a, b), mask) == Zero() <==> AllInWord(a, b, n, APART)
  {
    AndIsZero(a, mask);
    AndIsZero(Not(a), mask);
    AndIsZero(Xor(a, b), mask);
    AndIsZero(And(a, b), mask);
    assert forall i :: 0 <= i < 64 ==> a[i] == !Not(a)[i];
    assert forall i :: 0 <= i < 64 ==> (a[i] != b[i]) == Xor(a, b)[i];
    assert forall i :: 0 <= i < 64 ==> (a[i] && b[i]) == And(a, b)[i];
  }

  lemma AndOnes(a: Word)
    ensures And(a, Ones()) == a
  {
  }

  lemma EqualWords(a: Word, b: Word)
    ensures a == b <==> Xor(a, b) == Zero()
  {
    if Xor(a, b) == Zero() {
      forall i | 0 <= i < 64 ensures a[i] == b[i] {
        assert !Xor(a, b)[i];
      }
    }
  }

  method SlowEmpty(a: array<Word>, nbits: nat) returns (r: bool)
    requires nbits <= 64 * a.Length
    ensures r <==> AllBits(a[..], a[..], nbits, CLEAR)
  {
    var lim := nbits / 64;
    var k := 0;
    while k < lim
      invariant 0 <= k <= lim && AllBits(a[..], a[..], 64 * k, CLEAR)
    {
      AllBitsStep(a[..], a[..], k, 64, CLEAR);
      WordTests(a[k], a[k], Ones(), 64);
      AndOnes(a[k]);
      if a[k] != Zero() {
        assert !AllBits(a[..], a[..], 64 * k + 64, CLEAR);
        return false;
      }
      k := k + 1;
    }
    if nbits % 64 != 0 {
      AllBitsStep(a[..], a[..], k, nbits % 64, CLEAR);
      LastWordMaskBits(nbits);
      WordTests(a[k], a[k], LastWordMask(nbits), nbits % 64);
      if And(a[k], LastWordMask(nbits)) != Zero() {
        return false;
      }
    }
    return true;
  }

  /** The one-word fast path of `bitmap_empty` reads the whole word when `nbits` is 0. */
  method Empty(a: array<Word>, nbits: nat) returns (r: bool)
    requires nbits <= 64 * a.Length && 1 <= a.Length
    ensures r <==> if nbits == 0 then a[0] == Zero() else AllBits(a[..], a[..], nbits, CLEAR)
  {
    if nbits <= 64 {
      AllBitsStep(a[..], a[..], 0, nbits, CLEAR);
      LastWordMaskBits(nbits);
      if nbits > 0 {
        WordTests(a[0], a[0], LastWordMask(nbits), nbits);
      }
      AndOnes(a[0]);
      return And(a[0], LastWordMask(nbits)) == Zero();
    }
    r := SlowEmpty(a, nbits);
  }

  method SlowFull(a: array<Word>, nbits: nat) returns (r: bool)
    requires nbits <= 64 * a.Length
    ensures r <==> AllBits(a[..], a[..], nbits, SET)
  {
    var lim := nbits / 64;
    var k := 0;
    while k < lim
      invariant 0 <= k <= lim && AllBits(a[..], a[..], 64 * k, SET)
    {
      AllBitsStep(a[..], a[..], k, 64, SET);
      WordTests(a[k], a[k], Ones(), 64);
      AndOnes(Not(a[k]));
      if Not(a[k]) != Zero() {
        assert !AllBits(a[..], a[..], 64 * k + 64, SET);
        return false;
      }
      k := k + 1;
    }
    if nbits % 64 != 0 {
      AllBitsStep(a[..], a[..], k, nbits % 64, SET);
      LastWordMaskBits(nbits);
      WordTests(a[k], a[k], LastWordMask(nbits), nbits % 64);
      if And(Not(a[k]), LastWordMask(nbits)) != Zero() {
        return false;
      }
    }
    return true;
  }

  /** The one-word fast path of `bitmap_full` reads the whole word when `nbits` is 0. */
  method Full(a: array<Word>, nbits: nat) returns (r: bool)
    requires nbits <= 64 * a.Length && 1 <= a.Length
    ensures r <==> if nbits == 0 then a[0] == Ones() else AllBits(a[..], a[..], nbits, SET)
  {
    if nbits <= 64 {
      AllBitsStep(a[..], a[..], 0, nbits, SET);
      LastWordMaskBits(nbits);
      if nbits > 0 {
        WordTests(a[0], a[0], LastWordMask(nbits), nbits);
      }
      AndOnes(Not(a[0]));
      assert Not(Not(a[0])) == a[0];
      return And(Not(a[0]), LastWordMask(nbits)) == Zero();
    }
    r := SlowFull(a, nbits);
  }

  method SlowEqual(a: array<Word>, b: array<Word>, nbits: nat) returns (r: bool)
    requires nbits <= 64 * a.Length && nbits <= 64 * b.Length
    ensures r <==> AllBits(a[..], b[..], nbits, SAME)
  {
    var lim := nbits / 64;
    var k := 0;
    while k < lim
      invariant 0 <= k <= lim && AllBits(a[..], b[..], 64 * k, SAME)
    {
      AllBitsStep(a[..], b[..], k, 64, SAME);
      WordTests(a[k], b[k], Ones(), 64);
      AndOnes(Xor(a[k], b[k]));
      EqualWords(a[k], b[k]);
      if a[k] != b[k] {
        assert !AllBits(a[..], b[..], 64 * k + 64, SAME);
        return false;
      }
      k := k + 1;
    }
    if nbits % 64 != 0 {
      AllBitsStep(a[..], b[..], k, nbits % 64, SAME);
      LastWordMaskBits(nbits);
      WordTests(a[k], b[k], LastWordMask(nbits), nbits % 64);
      if And(Xor(a[k], b[k]), LastWordMask(nbits)) != Zero() {
        return false;
      }
    }
    return true;
  }

  /** The one-word fast path of `bitmap_equal` reads the whole word when `nbits` is 0. */
  method Equal(a: array<Word>, b: array<Word>, nbits: nat) returns (r: bool)
    requires nbits <= 64 * a.Length && nbits <= 64 * b.Length && 1 <= a.Length && 1 <= b.Length
    ensures r <==> if nbits == 0 then a[0] == b[0] else AllBits(a[..], b[..], nbits, SAME)
  {
    if nbits <= 64 {
      AllBitsStep(a[..], b[..], 0, nbits, SAME);
      LastWordMaskBits(nbits);
      if nbits > 0 {
        WordTests(a[0], b[0], LastWordMask(nbits), nbits);
      }
      AndOnes(Xor(a[0], b[0]));
      EqualWords(a[0], b[0]);
      return And(Xor(a[0], b[0]), LastWordMask(nbits)) == Zero();
    }
    r := SlowEqual(a, b, nbits);
  }

  method SlowIntersects(a: array<Word>, b: array<Word>, nbits: nat) returns (r: bool)
    requires nbits <= 64 * a.Length && nbits <= 64 * b.Length
    ensures !r <==> AllBits(a[..], b[..], nbits, APART)
  {
    var lim := nbits / 64;
    var k := 0;
    while k < lim
      invariant 0 <= k <= lim && AllBits(a[..], b[..], 64 * k, APART)
    {
      AllBitsStep(a[..], b[..], k, 64, APART);
      WordTests(a[k], b[k], Ones(), 64);
      AndOnes(And(a[k], b[k]));
      if And(a[k], b[k]) != Zero() {
        assert !AllBits(a[..], b[..], 64 * k + 64, APART);
        return true;
      }
      k := k + 1;
    }
    if nbits % 64 != 0 {
      AllBitsStep(a[..], b[..], k, nbits % 64, APART);
      LastWordMaskBits(nbits);
      WordTests(a[k], b[k], LastWordMask(nbits), nbits % 64);
      if And(And(a[k], b[k]), LastWordMask(nbits)) != Zero() {
        return true;
      }
    }
    return false;
  }

  /** The one-word fast path of `bitmap_intersects` reads the whole word when `nbits` is 0. */
  method Intersects(a: array<Word>, b: array<Word>, nbits: nat) returns (r: bool)
    requires nbits <= 64 * a.Length && nbits <= 64 * b.Length && 1 <= a.Length && 1 <= b.Length
    ensures !r <==> if nbits == 0 then And(a[0], b[0]) == Zero() else AllBits(a[..], b[..], nbits, APART)
  {
    if nbits <= 64 {
      AllBitsStep(a[..], b[..], 0, nbits, APART);
      LastWordMaskBits(nbits);
      if nbits > 0 {
        WordTests(a[0], b[0], LastWordMask(nbits), nbits);
      }
      AndOnes(And(a[0], b[0]));
      return And(And(a[0], b[0]), LastWordMask(nbits)) != Zero();
    }
    r := SlowIntersects(a, b, nbits);
  }
}
