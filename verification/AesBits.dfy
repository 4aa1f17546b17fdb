/** Arithmetic in GF(2^8) on the bits of a byte (section 4 of FIPS 197).

    A byte is the sequence of its bits, least significant bit first, so that sums are proved bit by
    bit. */
module AesBits {
  type Bits = b: seq<bool> | |b| == 8 witness seq(8, _ => false)

  function Zero(): Bits { seq(8, _ => false) }

  /** The sum in the field. */
  function Xor(a: Bits, b: Bits): Bits {
    seq(8, i requires 0 <= i < 8 => a[i] != b[i])
  }

  /** Multiplication by {02}: the bit that is shifted out, if set, is replaced by {1b}. */
  function Xtime(b: Bits): Bits {
    seq(8, i requires 0 <= i < 8 => (i > 0 && b[i - 1]) != (b[7] && (i == 0 || i == 1 || i == 3 || i == 4)))
  }

  /** Multiplication by the polynomial whose coefficients are the binary digits of `n`. */
  function Mul(b: Bits, n: nat): Bits
    decreases n
  {
    if n == 0 then Zero() else if n % 2 == 1 then Xor(b, Mul(Xtime(b), n / 2)) else Mul(Xtime(b), n / 2)
  }

  // ----- the field is a vector space over its sums -----

  lemma XorZero(a: Bits)
    ensures Xor(a, Zero()) == a && Xor(Zero(), a) == a && Xor(a, a) == Zero()
  {
  }

  lemma XorRegroup(a: Bits, b: Bits, c: Bits, d: Bits)
    ensures Xor(Xor(a, b), Xor(c, d)) == Xor(Xor(a, c), Xor(b, d))
  {
  }

  lemma XtimeOfXor(x: Bits, y: Bits)
    ensures Xtime(Xor(x, y)) == Xor(Xtime(x), Xtime(y))
  {
  }

  lemma {:induction false} MulOfXor(x: Bits, y: Bits, n: nat)
    ensures Mul(Xor(x, y), n) == Xor(Mul(x, n), Mul(y, n))
    decreases n
  {
    if n == 0 {
      XorZero(Zero());
    } else {
      XtimeOfXor(x, y);
      MulOfXor(Xtime(x), Xtime(y), n / 2);
      XorRegroup(x, y, Mul(Xtime(x), n / 2), Mul(Xtime(y), n / 2));
    }
  }

  // ----- the rows of the two matrices, sections 5.1.3 and 5.3.3 of FIPS 197 -----

  function Sum4(a: Bits, b: Bits, c: Bits, d: Bits): Bits {
    Xor(Xor(Xor(a, b), c), d)
  }

  /** The matrices are circulant: each row is the first one, applied to the rotated column. */
  function MixRow(a: Bits, b: Bits, c: Bits, d: Bits): Bits {
    Sum4(Mul(a, 2), Mul(b, 3), c, d)
  }

  function InvMixRow(a: Bits, b: Bits, c: Bits, d: Bits): Bits {
    Sum4(Mul(a, 14), Mul(b, 11), Mul(c, 13), Mul(d, 9))
  }

  lemma SumOfSums(a: Bits, a': Bits, b: Bits, b': Bits, c: Bits, c': Bits, d: Bits, d': Bits)
    ensures Sum4(Xor(a, a'), Xor(b, b'), Xor(c, c'), Xor(d, d')) == Xor(Sum4(a, b, c, d), Sum4(a', b', c', d'))
  {
    XorRegroup(a, a', b, b');
    XorRegroup(Xor(a, b), Xor(a', b'), c, c');
    XorRegroup(Xor(Xor(a, b), c), Xor(Xor(a', b'), c'), d, d');
  }

  lemma InvMixRowOfXor(a: Bits, b: Bits, c: Bits, d: Bits, a': Bits, b': Bits, c': Bits, d': Bits)
    ensures InvMixRow(Xor(a, a'), Xor(b, b'), Xor(c, c'), Xor(d, d'))
         == Xor(InvMixRow(a, b, c, d), InvMixRow(a', b', c', d'))
  {
    MulOfXor(a, a', 14);
    MulOfXor(b, b', 11);
    MulOfXor(c, c', 13);
    MulOfXor(d, d', 9);
    SumOfSums(Mul(a, 14), Mul(a', 14), Mul(b, 11), Mul(b', 11), Mul(c, 13), Mul(c', 13), Mul(d, 9), Mul(d', 9));
  }

  /** The first row of one matrix times the first column of the other. */
  lemma InvMixRowOfMixRow(a: Bits, b: Bits, c: Bits, d: Bits)
    ensures InvMixRow(MixRow(a, b, c, d), MixRow(b, c, d, a), MixRow(c, d, a, b), MixRow(d, a, b, c)) == a
  {
    MulOfMixRow(a, b, c, d, 14);
    MulOfMixRow(b, c, d, a, 11);
    MulOfMixRow(c, d, a, b, 13);
    MulOfMixRow(d, a, b, c, 9);
    Transpose(
      Mul(Mul(a, 2), 14), Mul(Mul(b, 3), 14), Mul(c, 14), Mul(d, 14),
      Mul(a, 11), Mul(Mul(b, 2), 11), Mul(Mul(c, 3), 11), Mul(d, 11),
      Mul(a, 13), Mul(b, 13), Mul(Mul(c, 2), 13), Mul(Mul(d, 3), 13),
      Mul(Mul(a, 3), 9), Mul(b, 9), Mul(c, 9), Mul(Mul(d, 2), 9));
    Coefficients(a);
    Coefficients(b);
    Coefficients(c);
    Coefficients(d);
    XorZero(a);
  }

  /** Each row sorted by the byte it comes from. */
  lemma MulOfMixRow(a: Bits, b: Bits, c: Bits, d: Bits, n: nat)
    ensures Mul(MixRow(a, b, c, d), n) == Sum4(Mul(Mul(a, 2), n), Mul(Mul(b, 3), n), Mul(c, n), Mul(d, n))
    ensures Mul(MixRow(a, b, c, d), n) == Sum4(Mul(d, n), Mul(Mul(a, 2), n), Mul(Mul(b, 3), n), Mul(c, n))
    ensures Mul(MixRow(a, b, c, d), n) == Sum4(Mul(c, n), Mul(d, n), Mul(Mul(a, 2), n), Mul(Mul(b, 3), n))
    ensures Mul(MixRow(a, b, c, d), n) == Sum4(Mul(Mul(b, 3), n), Mul(c, n), Mul(d, n), Mul(Mul(a, 2), n))
  {
    var p, q := Mul(a, 2), Mul(b, 3);
    MulOfXor(p, q, n);
    MulOfXor(Xor(p, q), c, n);
    MulOfXor(Xor(Xor(p, q), c), d, n);
    RotateSum(Mul(p, n), Mul(q, n), Mul(c, n), Mul(d, n));
    RotateSum(Mul(q, n), Mul(c, n), Mul(d, n), Mul(p, n));
    RotateSum(Mul(c, n), Mul(d, n), Mul(p, n), Mul(q, n));
  }

  lemma RotateSum(a: Bits, b: Bits, c: Bits, d: Bits)
    ensures Sum4(a, b, c, d) == Sum4(b, c, d, a)
  {
  }

  /** Adding up a square of bytes by rows or by columns. */
  lemma Transpose(
    a0: Bits, b0: Bits, c0: Bits, d0: Bits, a1: Bits, b1: Bits, c1: Bits, d1: Bits,
    a2: Bits, b2: Bits, c2: Bits, d2: Bits, a3: Bits, b3: Bits, c3: Bits, d3: Bits)
    ensures Sum4(Sum4(a0, b0, c0, d0), Sum4(a1, b1, c1, d1), Sum4(a2, b2, c2, d2), Sum4(a3, b3, c3, d3))
         == Sum4(Sum4(a0, a1, a2, a3), Sum4(b0, b1, b2, b3), Sum4(c0, c1, c2, c3), Sum4(d0, d1, d2, d3))
  {
    SumOfSums(Xor(Xor(a0, b0), c0), d0, Xor(Xor(a1, b1), c1), d1, Xor(Xor(a2, b2), c2), d2, Xor(Xor(a3, b3), c3), d3);
    SumOfSums(Xor(a0, b0), c0, Xor(a1, b1), c1, Xor(a2, b2), c2, Xor(a3, b3), c3);
    SumOfSums(a0, b0, a1, b1, a2, b2, a3, b3);
  }

  /** The products of the first row with the four columns are {01}, {00}, {00} and {00}. */
  lemma Coefficients(x: Bits)
    ensures Sum4(Mul(Mul(x, 2), 14), Mul(x, 11), Mul(x, 13), Mul(Mul(x, 3), 9)) == x
    ensures Sum4(Mul(Mul(x, 3), 14), Mul(Mul(x, 2), 11), Mul(x, 13), Mul(x, 9)) == Zero()
    ensures Sum4(Mul(x, 14), Mul(Mul(x, 3), 11), Mul(Mul(x, 2), 13), Mul(x, 9)) == Zero()
    ensures Sum4(Mul(x, 14), Mul(x, 11), Mul(Mul(x, 3), 13), Mul(Mul(x, 2), 9)) == Zero()
  {
    var y := Xtime(x);
    Multiples(x);
    Multiples(y);
    MulOfXor(x, y, 14);
    MulOfXor(x, y, 11);
    MulOfXor(x, y, 13);
    MulOfXor(x, y, 9);
    Cancel(x, y, Xtime(y), Xtime(Xtime(y)), Xtime(Xtime(Xtime(y))));
  }

  /** The coefficients written as sums of x, {02}x, {04}x, {08}x and {10}x. */
  lemma Cancel(x: Bits, y: Bits, z: Bits, u: Bits, v: Bits)
    ensures Sum4(Xor(z, Xor(u, v)), Xor(x, Xor(y, u)), Xor(x, Xor(z, u)), Xor(Xor(x, u), Xor(y, v))) == x
    ensures Sum4(Xor(Xor(y, Xor(z, u)), Xor(z, Xor(u, v))), Xor(y, Xor(z, v)), Xor(x, Xor(z, u)), Xor(x, u)) == Zero()
    ensures Sum4(Xor(y, Xor(z, u)), Xor(Xor(x, Xor(y, u)), Xor(y, Xor(z, v))), Xor(y, Xor(u, v)), Xor(x, u)) == Zero()
    ensures Sum4(Xor(y, Xor(z, u)), Xor(x, Xor(y, u)), Xor(Xor(x, Xor(z, u)), Xor(y, Xor(u, v))), Xor(y, v)) == Zero()
  {
  }

  lemma Multiples(x: Bits)
    ensures Mul(x, 2) == Xtime(x) && Mul(x, 3) == Xor(x, Xtime(x))
    ensures Mul(x, 9) == Xor(x, Xtime(Xtime(Xtime(x))))
    ensures Mul(x, 11) == Xor(x, Xor(Xtime(x), Xtime(Xtime(Xtime(x)))))
    ensures Mul(x, 13) == Xor(x, Xor(Xtime(Xtime(x)), Xtime(Xtime(Xtime(x)))))
    ensures Mul(x, 14) == Xor(Xtime(x), Xor(Xtime(Xtime(x)), Xtime(Xtime(Xtime(x)))))
  {
  }
}
