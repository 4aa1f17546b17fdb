/** 64-bit machine words (`unsigned long`, with `BITS_PER_LONG` 64).

    A word is the sequence of its bits, least significant bit first, and each C operator is what it
    does to bit `i`.  A shift amount is below the word size, as C demands. */
module Words {
  import opened Arith

  const BITS_PER_LONG := 64

  type Word = w: seq<bool> | |w| == BITS_PER_LONG witness Zero()

  /** `0UL` */
  function Zero(): (w: seq<bool>)
    ensures |w| == BITS_PER_LONG
  {
    seq(BITS_PER_LONG, _ => false)
  }

  function And(a: Word, b: Word): Word {
    seq(BITS_PER_LONG, i requires 0 <= i < BITS_PER_LONG => a[i] && b[i])
  }

  function Or(a: Word, b: Word): Word {
    seq(BITS_PER_LONG, i requires 0 <= i < BITS_PER_LONG => a[i] || b[i])
  }

  function Xor(a: Word, b: Word): Word {
    seq(BITS_PER_LONG, i requires 0 <= i < BITS_PER_LONG => a[i] != b[i])
  }

  /** `~a` */
  function Not(a: Word): Word {
    seq(BITS_PER_LONG, i requires 0 <= i < BITS_PER_LONG => !a[i])
  }

  /** `a << n` */
  function Shl(a: Word, n: nat): Word
    requires n < BITS_PER_LONG
  {
    seq(BITS_PER_LONG, i requires 0 <= i < BITS_PER_LONG => n <= i && a[i - n])
  }

  /** `a >> n` */
  function Shr(a: Word, n: nat): Word
    requires n < BITS_PER_LONG
  {
    seq(BITS_PER_LONG, i requires 0 <= i < BITS_PER_LONG => i + n < BITS_PER_LONG && a[i + n])
  }

  /** `~0UL` */
  function Ones(): Word {
    Not(Zero())
  }

  /** `1UL` */
  function One(): Word {
    Zero()[0 := true]
  }

  /** Subtracts one from the number whose bits are `s`: the borrow runs up to the lowest set bit. */
  function Borrow(s: seq<bool>): (r: seq<bool>)
    ensures |r| == |s|
  {
    if s == [] then [] else if s[0] then [false] + s[1..] else [true] + Borrow(s[1..])
  }

  /** `a - 1UL` */
  function Pred(a: Word): Word {
    Borrow(a)
  }

  /** Below the lowest set bit `k` the borrow sets every bit; it clears `k` and keeps the rest. */
  lemma {:induction false} BorrowBits(s: seq<bool>, k: nat)
    requires k < |s| && s[k] && forall i :: 0 <= i < k ==> !s[i]
    ensures Borrow(s) == seq(|s|, i requires 0 <= i < |s| => if i < k then true else if i == k then false else s[i])
  {
    if k > 0 {
      BorrowBits(s[1..], k - 1);
    }
  }

  /** `(1UL << n) - 1` has exactly the bits below `n`. */
  lemma MaskBits(n: nat)
    requires n < BITS_PER_LONG
    ensures forall i :: 0 <= i < BITS_PER_LONG ==> Pred(Shl(One(), n))[i] == (i < n)
  {
    BorrowBits(Shl(One(), n), n);
  }

  // ----- words and numbers -----

  function Pow2(k: nat): (p: nat)
    ensures p >= 1
  {
    if k == 0 then 1 else 2 * Pow2(k - 1)
  }

  lemma {:induction false} Pow2Add(j: nat, k: nat)
    ensures Pow2(j + k) == Pow2(j) * Pow2(k)
  {
    if j > 0 {
      Pow2Add(j - 1, k);
      assert Pow2(j) * Pow2(k) == 2 * (Pow2(j - 1) * Pow2(k));
    }
  }

  /** The number whose bits are `s`. */
  function Value(s: seq<bool>): nat {
    if s == [] then 0 else (if s[0] then 1 else 0) + 2 * Value(s[1..])
  }

  /** The low `len` bits of the number `n`. */
  function Bits(n: nat, len: nat): (s: seq<bool>)
    ensures |s| == len
  {
    if len == 0 then [] else [n % 2 == 1] + Bits(n / 2, len - 1)
  }

  lemma {:induction false} ValueOfBits(n: nat, len: nat)
    ensures Value(Bits(n, len)) == n % Pow2(len)
  {
    if len > 0 {
      ValueOfBits(n / 2, len - 1);
      assert Bits(n, len)[1..] == Bits(n / 2, len - 1);
      HalveMod(n, Pow2(len - 1));
    }
  }

  lemma HalveMod(n: nat, p: nat)
    requires p >= 1
    ensures n % (2 * p) == n % 2 + 2 * (n / 2 % p)
  {
    var q, r := n / 2 / p, n / 2 % p;
    assert n == 2 * (q * p + r) + n % 2;
    assert n == q * (2 * p) + (2 * r + n % 2);
    DivisionIsUnique(n, 2 * p, q, 2 * r + n % 2);
  }

  /** The number 2^k - 1 has exactly the bits below `k`. */
  lemma {:induction false} BitsOfMask(k: nat, len: nat, i: nat)
    requires i < len
    ensures Bits(Pow2(k) - 1, len)[i] == (i < k)
  {
    if k > 0 {
      assert Pow2(k) - 1 == 2 * (Pow2(k - 1) - 1) + 1;
      if i > 0 {
        BitsOfMask(k - 1, len - 1, i - 1);
      }
    } else if i > 0 {
      BitsOfMask(k, len - 1, i - 1);
    }
  }

  /** Clearing the bits below `k` rounds a number down to a multiple of 2^k. */
  lemma {:induction false} ClearLow(s: seq<bool>, t: seq<bool>, k: nat)
    requires |t| == |s| && forall i :: 0 <= i < |s| ==> t[i] == (k <= i && s[i])
    ensures Value(t) == Value(s) - Value(s) % Pow2(k)
  {
    if k == 0 {
      assert t == s;
    } else if s != [] {
      ClearLow(s[1..], t[1..], k - 1);
      var v := Value(s);
      HalveMod(v, Pow2(k - 1));
      assert v / 2 == Value(s[1..]);
    } else {
      DivisionIsUnique(0, Pow2(k), 0, 0);
    }
  }
}
