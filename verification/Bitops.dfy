/** Searches over arrays of machine words (src/bitops.c, src/bitops.h).

    The searches keep the source's structure: the partial first word, the full words and the partial
    last word.  A label that the source jumps to is a method of its own, and the jump a last call. */
module Bitops {
  import opened Words

  /** Bit number `i` of the words `bits`. */
  predicate BitAt(bits: seq<Word>, i: nat)
    requires i < 64 * |bits|
  {
    bits[i / 64][i % 64]
  }

  /** The constant whose `n` low bits are set, such as `0xffff` for 16. */
  function LowBits(n: nat): Word {
    seq(64, i => i < n)
  }

  /** The constant whose `n` high bits are set, written `~0ul << (BITS_PER_LONG - n)`. */
  function HighBits(n: nat): Word
    requires n <= 64
  {
    seq(64, i => 64 - n <= i)
  }

  lemma AndIsZero(a: Word, b: Word)
    ensures And(a, b) == Zero() <==> forall i :: 0 <= i < 64 ==> !(a[i] && b[i])
  {
    if And(a, b) == Zero() {
      forall i | 0 <= i < 64 ensures !(a[i] && b[i]) {
        assert And(a, b)[i] == (a[i] && b[i]);
      }
    }
  }

  lemma NonZeroHasBit(w: Word)
    ensures w != Zero() <==> exists i :: 0 <= i < 64 && w[i]
  {
    if forall i :: 0 <= i < 64 ==> !w[i] {
      assert w == Zero();
    }
  }

  // ----- find first / last bit in one word -----

  /** `word` is `word0` shifted right by `num`, only clear bits have been shifted out, and the lowest
      set bit of `word0` is now among the low `k`. */
  ghost predicate LowestWithin(word0: Word, word: Word, num: nat, k: nat) {
    && num + k <= 64
    && (forall i :: 0 <= i < 64 ==> word[i] == (i + num < 64 && word0[i + num]))
    && (forall i :: 0 <= i < num ==> !word0[i])
    && (exists i :: 0 <= i < k && word[i])
  }

  lemma LowestInUpperHalf(word0: Word, word: Word, num: nat, k: nat)
    requires LowestWithin(word0, word, num, 2 * k) && And(word, LowBits(k)) == Zero()
    ensures k < 64 && LowestWithin(word0, Shr(word, k), num + k, k)
  {
    AndIsZero(word, LowBits(k));
    var i :| 0 <= i < 2 * k && word[i];
    assert k <= i;
    assert Shr(word, k)[i - k];
    forall j | 0 <= j < num + k ensures !word0[j] {
      if num <= j {
        assert !word[j - num];
      }
    }
  }

  lemma LowestInLowerHalf(word0: Word, word: Word, num: nat, k: nat)
    requires LowestWithin(word0, word, num, 2 * k) && And(word, LowBits(k)) != Zero()
    ensures LowestWithin(word0, word, num, k)
  {
    AndIsZero(word, LowBits(k));
    var i :| 0 <= i < 64 && word[i] && LowBits(k)[i];
    assert i < k;
  }

  /** One `if` of `bitops_ffsl`: `k` is 32, 16, 8, 4, 2 or 1. */
  method SkipLow(ghost word0: Word, word: Word, num: nat, k: nat) returns (word': Word, num': nat)
    requires LowestWithin(word0, word, num, 2 * k)
    ensures LowestWithin(word0, word', num', k)
  {
    if And(word, LowBits(k)) == Zero() {
      LowestInUpperHalf(word0, word, num, k);
      num' := num + k;
      word' := Shr(word, k);
    } else {
      LowestInLowerHalf(word0, word, num, k);
      word', num' := word, num;
    }
  }

  /** Lowest set bit; undefined for 0. */
  method Ffsl(word0: Word) returns (num: nat)
    requires word0 != Zero()
    ensures num < 64 && word0[num]
    ensures forall i :: 0 <= i < num ==> !word0[i]
  {
    NonZeroHasBit(word0);
    var word := word0;
    word, num := SkipLow(word0, word, 0, 32);
    word, num := SkipLow(word0, word, num, 16);
    word, num := SkipLow(word0, word, num, 8);
    word, num := SkipLow(word0, word, num, 4);
    word, num := SkipLow(word0, word, num, 2);
    word, num := SkipLow(word0, word, num, 1);
  }

  /** `word` is `word0` shifted left by `63 - num`, only clear bits have been shifted out, and the
      highest set bit of `word0` is now among the high `k`. */
  ghost predicate HighestWithin(word0: Word, word: Word, num: nat, k: nat) {
    && k - 1 <= num < 64
    && (forall i :: 0 <= i < 64 ==> word[i] == (0 <= i - (63 - num) && word0[i - (63 - num)]))
    && (forall i :: num < i < 64 ==> !word0[i])
    && (exists i :: 64 - k <= i < 64 && 0 <= i && word[i])
  }

  lemma HighestInLowerHalf(word0: Word, word: Word, num: nat, k: nat)
    requires 1 <= k && HighestWithin(word0, word, num, 2 * k) && And(word, HighBits(k)) == Zero()
    ensures k < 64 && HighestWithin(word0, Shl(word, k), num - k, k)
  {
    AndIsZero(word, HighBits(k));
    var i :| 64 - 2 * k <= i < 64 && word[i];
    assert i < 64 - k;
    assert Shl(word, k)[i + k];
    forall j | num - k < j < 64 ensures !word0[j] {
      if j <= num {
        assert !word[j + (63 - num)];
      }
    }
  }

  lemma HighestInUpperHalf(word0: Word, word: Word, num: nat, k: nat)
    requires 1 <= k && HighestWithin(word0, word, num, 2 * k) && And(word, HighBits(k)) != Zero()
    ensures HighestWithin(word0, word, num, k)
  {
    AndIsZero(word, HighBits(k));
    var i :| 0 <= i < 64 && word[i] && HighBits(k)[i];
    assert 64 - k <= i;
  }

  /** One `if` of `bitops_flsl`: `k` is 32, 16, 8, 4, 2 or 1. */
  method SkipHigh(ghost word0: Word, word: Word, num: nat, k: nat) returns (word': Word, num': nat)
    requires 1 <= k <= 64 && HighestWithin(word0, word, num, 2 * k)
    ensures HighestWithin(word0, word', num', k)
  {
    if And(word, HighBits(k)) == Zero() {
      HighestInLowerHalf(word0, word, num, k);
      num' := num - k;
      word' := Shl(word, k);
    } else {
      HighestInUpperHalf(word0, word, num, k);
      word', num' := word, num;
    }
  }

  /** Highest set bit; undefined for 0. */
  method Flsl(word0: Word) returns (num: nat)
    requires word0 != Zero()
    ensures num < 64 && word0[num]
    ensures forall i :: num < i < 64 ==> !word0[i]
  {
    NonZeroHasBit(word0);
    var word := word0;
    word, num := SkipHigh(word0, word, 63, 32);
    word, num := SkipHigh(word0, word, num, 16);
    word, num := SkipHigh(word0, word, num, 8);
    word, num := SkipHigh(word0, word, num, 4);
    word, num := SkipHigh(word0, word, num, 2);
    word, num := SkipHigh(word0, word, num, 1);
  }

  /** Lowest clear bit; undefined for `~0UL`. */
  method Ffz(word: Word) returns (num: nat)
    requires word != Ones()
    ensures num < 64 && !word[num]
    ensures forall i :: 0 <= i < num ==> word[i]
  {
    assert Not(Not(word)) == word;
    assert Not(word) != Zero();
    num := Ffsl(Not(word));
    assert Not(word)[num];
    forall i | 0 <= i < num ensures word[i] {
      assert !Not(word)[i];
    }
  }

  // ----- searches over a bitmap -----

  /** `r` is the least bit number in `[offset, size)` whose bit is `value`, or `size` if there is none. */
  ghost predicate IsNext(bits: seq<Word>, size: nat, offset: nat, value: bool, r: nat)
    requires size <= 64 * |bits|
  {
    if size <= offset then r == size else
      && offset <= r <= size
      && (forall i :: offset <= i < r ==> BitAt(bits, i) == !value)
      && (r < size ==> BitAt(bits, r) == value)
  }

  ghost predicate NoneIn(bits: seq<Word>, from: nat, to: nat, value: bool)
    requires to <= 64 * |bits|
  {
    forall i :: from <= i < to ==> BitAt(bits, i) == !value
  }

  /** `tmp` holds the bits of the word that starts at bit `base`; those outside `[from, to)` have been
      given the value the search passes over. */
  ghost predicate Shows(bits: seq<Word>, tmp: Word, base: nat, from: nat, to: nat, value: bool)
    requires to <= 64 * |bits|
  {
    forall i :: 0 <= i < 64 ==> (tmp[i] == value) == (from <= base + i < to && BitAt(bits, base + i) == value)
  }

  lemma WordBits(bits: seq<Word>, p: nat)
    requires p < |bits|
    ensures forall i :: 0 <= i < 64 ==> bits[p][i] == BitAt(bits, 64 * p + i)
  {
    forall i | 0 <= i < 64 ensures bits[p][i] == BitAt(bits, 64 * p + i) {
      assert (64 * p + i) / 64 == p && (64 * p + i) % 64 == i;
    }
  }

  lemma WordShows(bits: seq<Word>, p: nat, from: nat, value: bool)
    requires p < |bits| && from <= 64 * p
    ensures Shows(bits, bits[p], 64 * p, from, 64 * p + 64, value)
  {
    WordBits(bits, p);
  }

  /** The masks of the partial first word. */
  lemma MaskFirst(bits: seq<Word>, p: nat, from: nat)
    requires p < |bits| && 64 * p < from < 64 * p + 64
    ensures Shows(bits, And(bits[p], Shl(Ones(), from % 64)), 64 * p, from, 64 * p + 64, true)
    ensures Shows(bits, Or(bits[p], Shr(Ones(), 64 - from % 64)), 64 * p, from, 64 * p + 64, false)
  {
    WordBits(bits, p);
    assert from % 64 == from - 64 * p;
  }

  /** The masks of the partial last word. */
  lemma MaskLastSet(bits: seq<Word>, tmp: Word, base: nat, from: nat, size: nat)
    requires base + 64 <= 64 * |bits| && 0 < size < 64
    requires Shows(bits, tmp, base, from, base + 64, true)
    ensures Shows(bits, And(tmp, Shr(Ones(), 64 - size)), base, from, base + size, true)
  {
    var masked := And(tmp, Shr(Ones(), 64 - size));
    assert forall i :: 0 <= i < 64 ==> masked[i] == (tmp[i] && i < size);
  }

  lemma MaskLastClear(bits: seq<Word>, tmp: Word, base: nat, from: nat, size: nat)
    requires base + 64 <= 64 * |bits| && 0 < size < 64
    requires Shows(bits, tmp, base, from, base + 64, false)
    ensures Shows(bits, Or(tmp, Shl(Ones(), size)), base, from, base + size, false)
  {
    var masked := Or(tmp, Shl(Ones(), size));
    assert forall i :: 0 <= i < 64 ==> masked[i] == (tmp[i] || size <= i);
  }

  /** The first matching bit of the word ends the search. */
  lemma FirstInWord(bits: seq<Word>, size: nat, offset: nat, value: bool, tmp: Word, base: nat, to: nat, k: nat)
    requires offset < size <= 64 * |bits| && to <= size && base <= size
    requires NoneIn(bits, offset, base, value) && Shows(bits, tmp, base, offset, to, value)
    requires k < 64 && tmp[k] == value && forall i :: 0 <= i < k ==> tmp[i] == !value
    ensures IsNext(bits, size, offset, value, base + k)
  {
    forall i | offset <= i < base + k ensures BitAt(bits, i) == !value {
      if base <= i {
        assert tmp[i - base] == !value;
      }
    }
  }

  /** A word without a matching bit is passed over. */
  lemma NoneInWord(bits: seq<Word>, offset: nat, value: bool, tmp: Word, base: nat, to: nat)
    requires base <= to <= base + 64 && to <= 64 * |bits|
    requires NoneIn(bits, offset, base, value) && Shows(bits, tmp, base, offset, to, value)
    requires tmp == if value then Zero() else Ones()
    ensures NoneIn(bits, offset, to, value)
  {
    forall i | offset <= i < to ensures BitAt(bits, i) == !value {
      if base <= i {
        assert tmp[i - base] == !value;
      }
    }
  }

  /** `find_next_bit` from label `found_middle` on. */
  method FoundMiddleSet(ghost s: seq<Word>, ghost size0: nat, ghost offset0: nat, tmp: Word, result: nat, ghost to: nat)
    returns (r: nat)
    requires offset0 < size0 <= 64 * |s| && to <= size0 && result <= size0
    requires NoneIn(s, offset0, result, true) && Shows(s, tmp, result, offset0, to, true) && tmp != Zero()
    ensures IsNext(s, size0, offset0, true, r)
  {
    var k := Ffsl(tmp);
    FirstInWord(s, size0, offset0, true, tmp, result, to, k);
    return result + k;
  }

  /** `find_next_bit` from label `found_first` on: the partial last word. */
  method FoundFirstSet(ghost s: seq<Word>, ghost size0: nat, ghost offset0: nat, tmp0: Word, result: nat, size: nat)
    returns (r: nat)
    requires offset0 < size0 == result + size <= 64 * |s| && 0 < size < 64 && result + 64 <= 64 * |s|
    requires NoneIn(s, offset0, result, true) && Shows(s, tmp0, result, offset0, result + 64, true)
    ensures IsNext(s, size0, offset0, true, r)
  {
    MaskLastSet(s, tmp0, result, offset0, size);
    var tmp := And(tmp0, Shr(Ones(), 64 - size));
    if tmp == Zero() {
      NoneInWord(s, offset0, true, tmp, result, size0);
      return result + size;
    }
    r := FoundMiddleSet(s, size0, offset0, tmp, result, size0);
  }

  /** `find_next_bit` from its loop over full words on. */
  method FullWordsSet(bits: array<Word>, ghost size0: nat, ghost offset0: nat, p0: nat, size1: nat) returns (r: nat)
    requires offset0 < size0 == 64 * p0 + size1 <= 64 * bits.Length && offset0 <= 64 * p0
    requires NoneIn(bits[..], offset0, 64 * p0, true)
    ensures IsNext(bits[..], size0, offset0, true, r)
  {
    ghost var s := bits[..];
    var p, result, size := p0, 64 * p0, size1;
    while size >= 64
      invariant result == 64 * p && result + size == size0 && 0 <= size
      invariant offset0 <= result && NoneIn(s, offset0, result, true)
    {
      var tmp := bits[p];
      p := p + 1;
      WordShows(s, p - 1, offset0, true);
      if tmp != Zero() {
        r := FoundMiddleSet(s, size0, offset0, tmp, result, result + 64);
        return;
      }
      NoneInWord(s, offset0, true, tmp, result, result + 64);
      result := result + 64;
      size := size - 64;
    }
    if size == 0 {
      return result;
    }
    WordShows(s, p, offset0, true);
    r := FoundFirstSet(s, size0, offset0, bits[p], result, size);
  }

  method FindNextBit(bits: array<Word>, size0: nat, offset0: nat) returns (r: nat)
    requires size0 <= 64 * bits.Length
    ensures IsNext(bits[..], size0, offset0, true, r)
  {
    if offset0 >= size0 {
      return size0;
    }
    var p: nat := offset0 / 64;
    var result: nat := 64 * p;
    var size: nat, offset: nat := size0 - result, offset0 % 64;
    if offset != 0 {
      var tmp := bits[p];
      p := p + 1;
      MaskFirst(bits[..], p - 1, offset0);
      tmp := And(tmp, Shl(Ones(), offset));
      if size < 64 {
        r := FoundFirstSet(bits[..], size0, offset0, tmp, result, size);
        return;
      }
      if tmp != Zero() {
        r := FoundMiddleSet(bits[..], size0, offset0, tmp, result, result + 64);
        return;
      }
      NoneInWord(bits[..], offset0, true, tmp, result, result + 64);
      size := size - 64;
      result := result + 64;
    }
    r := FullWordsSet(bits, size0, offset0, p, size);
  }

  /** `find_next_zero_bit` from label `found_middle` on. */
  method FoundMiddleClear(ghost s: seq<Word>, ghost size0: nat, ghost offset0: nat, tmp: Word, result: nat, ghost to: nat)
    returns (r: nat)
    requires offset0 < size0 <= 64 * |s| && to <= size0 && result <= size0
    requires NoneIn(s, offset0, result, false) && Shows(s, tmp, result, offset0, to, false) && tmp != Ones()
    ensures IsNext(s, size0, offset0, false, r)
  {
    var k := Ffz(tmp);
    FirstInWord(s, size0, offset0, false, tmp, result, to, k);
    return result + k;
  }

  /** `find_next_zero_bit` from label `found_first` on: the partial last word. */
  method FoundFirstClear(ghost s: seq<Word>, ghost size0: nat, ghost offset0: nat, tmp0: Word, result: nat, size: nat)
    returns (r: nat)
    requires offset0 < size0 == result + size <= 64 * |s| && 0 < size < 64 && result + 64 <= 64 * |s|
    requires NoneIn(s, offset0, result, false) && Shows(s, tmp0, result, offset0, result + 64, false)
    ensures IsNext(s, size0, offset0, false, r)
  {
    MaskLastClear(s, tmp0, result, offset0, size);
    var tmp := Or(tmp0, Shl(Ones(), size));
    if tmp == Ones() {
      NoneInWord(s, offset0, false, tmp, result, size0);
      return result + size;
    }
    r := FoundMiddleClear(s, size0, offset0, tmp, result, size0);
  }

  /** `find_next_zero_bit` from its loop over full words on. */
  method FullWordsClear(bits: array<Word>, ghost size0: nat, ghost offset0: nat, p0: nat, size1: nat) returns (r: nat)
    requires offset0 < size0 == 64 * p0 + size1 <= 64 * bits.Length && offset0 <= 64 * p0
    requires NoneIn(bits[..], offset0, 64 * p0, false)
    ensures IsNext(bits[..], size0, offset0, false, r)
  {
    ghost var s := bits[..];
    var p, result, size := p0, 64 * p0, size1;
    while size >= 64
      invariant result == 64 * p && result + size == size0 && 0 <= size
      invariant offset0 <= result && NoneIn(s, offset0, result, false)
    {
      var tmp := bits[p];
      p := p + 1;
      WordShows(s, p - 1, offset0, false);
      if tmp != Ones() {
        r := FoundMiddleClear(s, size0, offset0, tmp, result, result + 64);
        return;
      }
      NoneInWord(s, offset0, false, tmp, result, result + 64);
      result := result + 64;
      size := size - 64;
    }
    if size == 0 {
      return result;
    }
    WordShows(s, p, offset0, false);
    r := FoundFirstClear(s, size0, offset0, bits[p], result, size);
  }

  method FindNextZeroBit(bits: array<Word>, size0: nat, offset0: nat) returns (r: nat)
    requires size0 <= 64 * bits.Length
    ensures IsNext(bits[..], size0, offset0, false, r)
  {
    if offset0 >= size0 {
      return size0;
    }
    var p: nat := offset0 / 64;
    var result: nat := 64 * p;
    var size: nat, offset: nat := size0 - result, offset0 % 64;
    if offset != 0 {
      var tmp := bits[p];
      p := p + 1;
      MaskFirst(bits[..], p - 1, offset0);
      tmp := Or(tmp, Shr(Ones(), 64 - offset));
      if size < 64 {
        r := FoundFirstClear(bits[..], size0, offset0, tmp, result, size);
        return;
      }
      if tmp != Ones() {
        r := FoundMiddleClear(bits[..], size0, offset0, tmp, result, result + 64);
        return;
      }
      NoneInWord(bits[..], offset0, false, tmp, result, result + 64);
      size := size - 64;
      result := result + 64;
    }
    r := FullWordsClear(bits, size0, offset0, p, size);
  }

  // ----- find the last set bit -----

  /** `r` is the greatest set bit number below `size`, or `size` if there is none. */
  ghost predicate IsLast(bits: seq<Word>, size: nat, r: nat)
    requires size <= 64 * |bits|
  {
    && r <= size
    && (r < size ==> BitAt(bits, r))
    && NoneIn(bits, if r < size then r + 1 else 0, size, true)
  }

  lemma LastInWord(bits: seq<Word>, size: nat, tmp: Word, base: nat, to: nat, k: nat)
    requires base <= to <= size <= 64 * |bits| && to <= base + 64
    requires NoneIn(bits, to, size, true) && Shows(bits, tmp, base, base, to, true)
    requires k < 64 && tmp[k] && forall i :: k < i < 64 ==> !tmp[i]
    ensures IsLast(bits, size, base + k)
  {
    forall i | base + k < i < size ensures !BitAt(bits, i) {
      if i < to {
        assert !tmp[i - base];
      }
    }
  }

  method FindLastBit(bits: array<Word>, size: nat) returns (r: nat)
    requires size <= 64 * bits.Length
    ensures IsLast(bits[..], size, r)
  {
    ghost var s := bits[..];
    var words: nat := size / 64;
    if size % 64 != 0 {
      var tmp := And(bits[words], Shr(Ones(), 64 - size % 64));
      WordShows(s, words, 64 * words, true);
      MaskLastSet(s, s[words], 64 * words, 64 * words, size % 64);
      if tmp != Zero() {
        var k := Flsl(tmp);
        LastInWord(s, size, tmp, 64 * words, size, k);
        return words * 64 + k;
      }
      NoneInWord(s, 64 * words, true, tmp, 64 * words, size);
    }
    while words != 0
      invariant 64 * words <= size
      invariant NoneIn(s, 64 * words, size, true)
    {
      words := words - 1;
      var tmp := bits[words];
      WordShows(s, words, 64 * words, true);
      if tmp != Zero() {
        var k := Flsl(tmp);
        LastInWord(s, size, tmp, 64 * words, 64 * words + 64, k);
        return words * 64 + k;
      }
      NoneInWord(s, 64 * words, true, tmp, 64 * words, 64 * words + 64);
    }
    return size;
  }

  // ----- single bits -----

  /** `set_bit` */
  method SetBit(nr: nat, bits: array<Word>)
    requires nr < 64 * bits.Length
    modifies bits
    ensures forall i :: 0 <= i < 64 * bits.Length ==> BitAt(bits[..], i) == (i == nr || BitAt(old(bits[..]), i))
  {
    bits[nr / 64] := Or(bits[nr / 64], Shl(One(), nr % 64));
  }

  /** `clear_bit` */
  method ClearBit(nr: nat, bits: array<Word>)
    requires nr < 64 * bits.Length
    modifies bits
    ensures forall i :: 0 <= i < 64 * bits.Length ==> BitAt(bits[..], i) == (i != nr && BitAt(old(bits[..]), i))
  {
    bits[nr / 64] := And(bits[nr / 64], Not(Shl(One(), nr % 64)));
  }

  /** `test_bit`: `1UL & (addr[nr / 64] >> (nr & 63))` */
  method TestBit(nr: nat, bits: array<Word>) returns (r: bool)
    requires nr < 64 * bits.Length
    ensures r == BitAt(bits[..], nr)
  {
    AndIsZero(One(), Shr(bits[nr / 64], nr % 64));
    assert Shr(bits[nr / 64], nr % 64)[0] == BitAt(bits[..], nr);
    r := And(One(), Shr(bits[nr / 64], nr % 64)) != Zero();
  }
}
