/** Bytes as elements of GF(2^8), and the byte substitution of AES (src/aes.c:325-390, 656-721). */
module AesField {
  import B = AesBits

  type Byte = bv8

  /** `u ^ v`, the sum in the field. */
  function Add(u: Byte, v: Byte): Byte { u ^ v }

  function Sum4(a: Byte, b: Byte, c: Byte, d: Byte): Byte {
    Add(Add(Add(a, b), c), d)
  }

  /** Multiplication by {02}: the bit that is shifted out, if set, is replaced by {1b}. */
  function Xtime(b: Byte): Byte {
    (b << 1) ^ (b >> 7) ^ ((b >> 7) << 1) ^ ((b >> 7) << 3) ^ ((b >> 7) << 4)
  }

  /** Multiplication by the polynomial whose coefficients are the binary digits of `n`. */
  function Mul(b: Byte, n: nat): Byte
    decreases n
  {
    if n == 0 then 0 else if n % 2 == 1 then Add(b, Mul(Xtime(b), n / 2)) else Mul(Xtime(b), n / 2)
  }

  /** The rows of the matrices of sections 5.1.3 and 5.3.3 of FIPS 197.  The matrices are circulant:
      each row is the first one, applied to the rotated column. */
  function MixRow(a: Byte, b: Byte, c: Byte, d: Byte): Byte {
    Sum4(Mul(a, 2), Mul(b, 3), c, d)
  }

  function InvMixRow(a: Byte, b: Byte, c: Byte, d: Byte): Byte {
    Sum4(Mul(a, 14), Mul(b, 11), Mul(c, 13), Mul(d, 9))
  }

  // ----- the arithmetic is that of the bits -----

  /** Bit `i` of a byte. */
  function Bit(v: Byte, i: nat): bool
    requires i < 8
  {
    if i < 4 then
      if i == 0 then v & 1 != 0 else if i == 1 then v & 2 != 0 else if i == 2 then v & 4 != 0 else v & 8 != 0
    else
      if i == 4 then v & 0x10 != 0 else if i == 5 then v & 0x20 != 0 else if i == 6 then v & 0x40 != 0 else v & 0x80 != 0
  }

  function Bits(v: Byte): B.Bits {
    seq(8, i requires 0 <= i < 8 => Bit(v, i))
  }

  lemma BitsAreEqual(u: Byte, v: Byte)
    requires Bits(u) == Bits(v)
    ensures u == v
  {
    assert Bits(u)[0] == Bits(v)[0] && Bits(u)[1] == Bits(v)[1] && Bits(u)[2] == Bits(v)[2] && Bits(u)[3] == Bits(v)[3];
    assert Bits(u)[4] == Bits(v)[4] && Bits(u)[5] == Bits(v)[5] && Bits(u)[6] == Bits(v)[6] && Bits(u)[7] == Bits(v)[7];
    SameBits(u, v);
  }

  lemma SameBits(u: Byte, v: Byte)
    requires Bit(u, 0) == Bit(v, 0) && Bit(u, 1) == Bit(v, 1) && Bit(u, 2) == Bit(v, 2) && Bit(u, 3) == Bit(v, 3)
    requires Bit(u, 4) == Bit(v, 4) && Bit(u, 5) == Bit(v, 5) && Bit(u, 6) == Bit(v, 6) && Bit(u, 7) == Bit(v, 7)
    ensures u == v
  {
  }

  lemma BitOfXor(u: Byte, v: Byte, i: nat)
    requires i < 8
    ensures Bit(u ^ v, i) == (Bit(u, i) != Bit(v, i))
  {
    MasksOfXor(u, v);
    if i == 0 || i == 1 || i == 2 || i == 3 {
    } else {
      assert i == 4 || i == 5 || i == 6 || i == 7;
    }
  }

  lemma MasksOfXor(u: Byte, v: Byte)
    ensures Bit(u ^ v, 0) == (Bit(u, 0) != Bit(v, 0))
    ensures Bit(u ^ v, 1) == (Bit(u, 1) != Bit(v, 1))
    ensures Bit(u ^ v, 2) == (Bit(u, 2) != Bit(v, 2))
    ensures Bit(u ^ v, 3) == (Bit(u, 3) != Bit(v, 3))
    ensures Bit(u ^ v, 4) == (Bit(u, 4) != Bit(v, 4))
    ensures Bit(u ^ v, 5) == (Bit(u, 5) != Bit(v, 5))
    ensures Bit(u ^ v, 6) == (Bit(u, 6) != Bit(v, 6))
    ensures Bit(u ^ v, 7) == (Bit(u, 7) != Bit(v, 7))
  {
  }

  lemma BitsOfXor(u: Byte, v: Byte)
    ensures Bits(Add(u, v)) == B.Xor(Bits(u), Bits(v))
  {
    forall i | 0 <= i < 8 ensures Bits(u ^ v)[i] == B.Xor(Bits(u), Bits(v))[i] {
      BitOfXor(u, v, i);
    }
  }

  lemma BitOfXtime(v: Byte, i: nat)
    requires i < 8
    ensures Bit(Xtime(v), i) == ((i > 0 && Bit(v, i - 1)) != (Bit(v, 7) && (i == 0 || i == 1 || i == 3 || i == 4)))
  {
  }

  lemma BitsOfXtime(v: Byte)
    ensures Bits(Xtime(v)) == B.Xtime(Bits(v))
  {
    forall i | 0 <= i < 8 ensures Bits(Xtime(v))[i] == B.Xtime(Bits(v))[i] {
      BitOfXtime(v, i);
    }
  }

  lemma BitsOfZero()
    ensures Bits(0) == B.Zero()
  {
  }

  lemma {:induction false} BitsOfMul(v: Byte, n: nat)
    ensures Bits(Mul(v, n)) == B.Mul(Bits(v), n)
    decreases n
  {
    if n > 0 {
      BitsOfXtime(v);
      BitsOfMul(Xtime(v), n / 2);
      BitsOfXor(v, Mul(Xtime(v), n / 2));
    } else {
      BitsOfZero();
    }
  }

  lemma BitsOfSum(a: Byte, b: Byte, c: Byte, d: Byte)
    ensures Bits(Sum4(a, b, c, d)) == B.Sum4(Bits(a), Bits(b), Bits(c), Bits(d))
  {
    hide Bits, Add;
    BitsOfXor(a, b);
    BitsOfXor(Add(a, b), c);
    BitsOfXor(Add(Add(a, b), c), d);
  }

  lemma BitsOfMixRow(a: Byte, b: Byte, c: Byte, d: Byte)
    ensures Bits(MixRow(a, b, c, d)) == B.MixRow(Bits(a), Bits(b), Bits(c), Bits(d))
  {
    BitsOfMul(a, 2);
    BitsOfMul(b, 3);
    BitsOfSum(Mul(a, 2), Mul(b, 3), c, d);
  }

  lemma BitsOfInvMixRow(a: Byte, b: Byte, c: Byte, d: Byte)
    ensures Bits(InvMixRow(a, b, c, d)) == B.InvMixRow(Bits(a), Bits(b), Bits(c), Bits(d))
  {
    BitsOfMul(a, 14);
    BitsOfMul(b, 11);
    BitsOfMul(c, 13);
    BitsOfMul(d, 9);
    BitsOfSum(Mul(a, 14), Mul(b, 11), Mul(c, 13), Mul(d, 9));
  }

  lemma InvMixRowOfSum(a: Byte, b: Byte, c: Byte, d: Byte, a': Byte, b': Byte, c': Byte, d': Byte)
    ensures InvMixRow(Add(a, a'), Add(b, b'), Add(c, c'), Add(d, d'))
         == Add(InvMixRow(a, b, c, d), InvMixRow(a', b', c', d'))
  {
    hide *;
    BitsOfInvMixRow(a, b, c, d);
    BitsOfInvMixRow(a', b', c', d');
    BitsOfInvMixRow(Add(a, a'), Add(b, b'), Add(c, c'), Add(d, d'));
    BitsOfXor(a, a');
    BitsOfXor(b, b');
    BitsOfXor(c, c');
    BitsOfXor(d, d');
    BitsOfXor(InvMixRow(a, b, c, d), InvMixRow(a', b', c', d'));
    B.InvMixRowOfXor(Bits(a), Bits(b), Bits(c), Bits(d), Bits(a'), Bits(b'), Bits(c'), Bits(d'));
    BitsAreEqual(InvMixRow(Add(a, a'), Add(b, b'), Add(c, c'), Add(d, d')), Add(InvMixRow(a, b, c, d), InvMixRow(a', b', c', d')));
  }

  lemma InvMixRowOfMixRow(a: Byte, b: Byte, c: Byte, d: Byte)
    ensures InvMixRow(MixRow(a, b, c, d), MixRow(b, c, d, a), MixRow(c, d, a, b), MixRow(d, a, b, c)) == a
  {
    hide *;
    BitsOfMixRow(a, b, c, d);
    BitsOfMixRow(b, c, d, a);
    BitsOfMixRow(c, d, a, b);
    BitsOfMixRow(d, a, b, c);
    BitsOfInvMixRow(MixRow(a, b, c, d), MixRow(b, c, d, a), MixRow(c, d, a, b), MixRow(d, a, b, c));
    B.InvMixRowOfMixRow(Bits(a), Bits(b), Bits(c), Bits(d));
    BitsAreEqual(InvMixRow(MixRow(a, b, c, d), MixRow(b, c, d, a), MixRow(c, d, a, b), MixRow(d, a, b, c)), a);
  }

  // ----- sums of bytes -----

  lemma AddTwice(u: Byte, v: Byte)
    ensures Add(Add(u, v), v) == u
  {
  }

  lemma AddZero(u: Byte)
    ensures Add(u, 0) == u && Add(0, u) == u
  {
  }

  lemma AddAssociative(u: Byte, v: Byte, w: Byte)
    ensures Add(Add(u, v), w) == Add(u, Add(v, w))
  {
  }

  lemma RotateSum(a: Byte, b: Byte, c: Byte, d: Byte)
    ensures Sum4(a, b, c, d) == Sum4(b, c, d, a)
  {
  }

  // ----- the byte substitution -----

  /** The byte that the entries of `Te4` repeat four times. */
  function Sbox(x: Byte): Byte {
    if x & 0x80 != 0 then
      if x & 0x40 != 0 then
        if x & 0x20 != 0 then
          if x & 0x10 != 0 then
            if x & 0x08 != 0 then
              if x & 0x04 != 0 then
                if x & 0x02 != 0 then (if x & 0x01 != 0 then 0x16 else 0xbb) else (if x & 0x01 != 0 then 0x54 else 0xb0)
              else
                if x & 0x02 != 0 then (if x & 0x01 != 0 then 0x0f else 0x2d) else (if x & 0x01 != 0 then 0x99 else 0x41)
            else
              if x & 0x04 != 0 then
                if x & 0x02 != 0 then (if x & 0x01 != 0 then 0x68 else 0x42) else (if x & 0x01 != 0 then 0xe6 else 0xbf)
              else
                if x & 0x02 != 0 then (if x & 0x01 != 0 then 0x0d else 0x89) else (if x & 0x01 != 0 then 0xa1 else 0x8c)
          else
            if x & 0x08 != 0 then
              if x & 0x04 != 0 then
                if x & 0x02 != 0 then (if x & 0x01 != 0 then 0xdf else 0x28) else (if x & 0x01 != 0 then 0x55 else 0xce)
              else
                if x & 0x02 != 0 then (if x & 0x01 != 0 then 0xe9 else 0x87) else (if x & 0x01 != 0 then 0x1e else 0x9b)
            else
              if x & 0x04 != 0 then
                if x & 0x02 != 0 then (if x & 0x01 != 0 then 0x94 else 0x8e) else (if x & 0x01 != 0 then 0xd9 else 0x69)
              else
                if x & 0x02 != 0 then (if x & 0x01 != 0 then 0x11 else 0x98) else (if x & 0x01 != 0 then 0xf8 else 0xe1)
        else
          if x & 0x10 != 0 then
            if x & 0x08 != 0 then
              if x & 0x04 != 0 then
                if x & 0x02 != 0 then (if x & 0x01 != 0 then 0x9e else 0x1d) else (if x & 0x01 != 0 then 0xc1 else 0x86)
              else
                if x & 0x02 != 0 then (if x & 0x01 != 0 then 0xb9 else 0x57) else (if x & 0x01 != 0 then 0x35 else 0x61)
            else
              if x & 0x04 != 0 then
                if x & 0x02 != 0 then (if x & 0x01 != 0 then 0x0e else 0xf6) else (if x & 0x01 != 0 then 0x03 else 0x48)
              else
                if x & 0x02 != 0 then (if x & 0x01 != 0 then 0x66 else 0xb5) else (if x & 0x01 != 0 then 0x3e else 0x70)
          else
            if x & 0x08 != 0 then
              if x & 0x04 != 0 then
                if x & 0x02 != 0 then (if x & 0x01 != 0 then 0x8a else 0x8b) else (if x & 0x01 != 0 then 0xbd else 0x4b)
              else
                if x & 0x02 != 0 then (if x & 0x01 != 0 then 0x1f else 0x74) else (if x & 0x01 != 0 then 0xdd else 0xe8)
            else
              if x & 0x04 != 0 then
                if x & 0x02 != 0 then (if x & 0x01 != 0 then 0xc6 else 0xb4) else (if x & 0x01 != 0 then 0xa6 else 0x1c)
              else
                if x & 0x02 != 0 then (if x & 0x01 != 0 then 0x2e else 0x25) else (if x & 0x01 != 0 then 0x78 else 0xba)
      else
        if x & 0x20 != 0 then
          if x & 0x10 != 0 then
            if x & 0x08 != 0 then
              if x & 0x04 != 0 then
                if x & 0x02 != 0 then (if x & 0x01 != 0 then 0x08 else 0xae) else (if x & 0x01 != 0 then 0x7a else 0x65)
              else
                if x & 0x02 != 0 then (if x & 0x01 != 0 then 0xea else 0xf4) else (if x & 0x01 != 0 then 0x56 else 0x6c)
            else
              if x & 0x04 != 0 then
                if x & 0x02 != 0 then (if x & 0x01 != 0 then 0xa9 else 0x4e) else (if x & 0x01 != 0 then 0xd5 else 0x8d)
              else
                if x & 0x02 != 0 then (if x & 0x01 != 0 then 0x6d else 0x37) else (if x & 0x01 != 0 then 0xc8 else 0xe7)
          else
            if x & 0x08 != 0 then
              if x & 0x04 != 0 then
                if x & 0x02 != 0 then (if x & 0x01 != 0 then 0x79 else 0xe4) else (if x & 0x01 != 0 then 0x95 else 0x91)
              else
                if x & 0x02 != 0 then (if x & 0x01 != 0 then 0x62 else 0xac) else (if x & 0x01 != 0 then 0xd3 else 0xc2)
            else
              if x & 0x04 != 0 then
                if x & 0x02 != 0 then (if x & 0x01 != 0 then 0x5c else 0x24) else (if x & 0x01 != 0 then 0x06 else 0x49)
              else
                if x & 0x02 != 0 then (if x & 0x01 != 0 then 0x0a else 0x3a) else (if x & 0x01 != 0 then 0x32 else 0xe0)
        else
          if x & 0x10 != 0 then
            if x & 0x08 != 0 then
              if x & 0x04 != 0 then
                if x & 0x02 != 0 then (if x & 0x01 != 0 then 0xdb else 0x0b) else (if x & 0x01 != 0 then 0x5e else 0xde)
              else
                if x & 0x02 != 0 then (if x & 0x01 != 0 then 0x14 else 0xb8) else (if x & 0x01 != 0 then 0xee else 0x46)
            else
              if x & 0x04 != 0 then
                if x & 0x02 != 0 then (if x & 0x01 != 0 then 0x88 else 0x90) else (if x & 0x01 != 0 then 0x2a else 0x22)
              else
                if x & 0x02 != 0 then (if x & 0x01 != 0 then 0xdc else 0x4f) else (if x & 0x01 != 0 then 0x81 else 0x60)
          else
            if x & 0x08 != 0 then
              if x & 0x04 != 0 then
                if x & 0x02 != 0 then (if x & 0x01 != 0 then 0x73 else 0x19) else (if x & 0x01 != 0 then 0x5d else 0x64)
              else
                if x & 0x02 != 0 then (if x & 0x01 != 0 then 0x3d else 0x7e) else (if x & 0x01 != 0 then 0xa7 else 0xc4)
            else
              if x & 0x04 != 0 then
                if x & 0x02 != 0 then (if x & 0x01 != 0 then 0x17 else 0x44) else (if x & 0x01 != 0 then 0x97 else 0x5f)
              else
                if x & 0x02 != 0 then (if x & 0x01 != 0 then 0xec else 0x13) else (if x & 0x01 != 0 then 0x0c else 0xcd)
    else
      if x & 0x40 != 0 then
        if x & 0x20 != 0 then
          if x & 0x10 != 0 then
            if x & 0x08 != 0 then
              if x & 0x04 != 0 then
                if x & 0x02 != 0 then (if x & 0x01 != 0 then 0xd2 else 0xf3) else (if x & 0x01 != 0 then 0xff else 0x10)
              else
                if x & 0x02 != 0 then (if x & 0x01 != 0 then 0x21 else 0xda) else (if x & 0x01 != 0 then 0xb6 else 0xbc)
            else
              if x & 0x04 != 0 then
                if x & 0x02 != 0 then (if x & 0x01 != 0 then 0xf5 else 0x38) else (if x & 0x01 != 0 then 0x9d else 0x92)
              else
                if x & 0x02 != 0 then (if x & 0x01 != 0 then 0x8f else 0x40) else (if x & 0x01 != 0 then 0xa3 else 0x51)
          else
            if x & 0x08 != 0 then
              if x & 0x04 != 0 then
                if x & 0x02 != 0 then (if x & 0x01 != 0 then 0xa8 else 0x9f) else (if x & 0x01 != 0 then 0x3c else 0x50)
              else
                if x & 0x02 != 0 then (if x & 0x01 != 0 then 0x7f else 0x02) else (if x & 0x01 != 0 then 0xf9 else 0x45)
            else
              if x & 0x04 != 0 then
                if x & 0x02 != 0 then (if x & 0x01 != 0 then 0x85 else 0x33) else (if x & 0x01 != 0 then 0x4d else 0x43)
              else
                if x & 0x02 != 0 then (if x & 0x01 != 0 then 0xfb else 0xaa) else (if x & 0x01 != 0 then 0xef else 0xd0)
        else
          if x & 0x10 != 0 then
            if x & 0x08 != 0 then
              if x & 0x04 != 0 then
                if x & 0x02 != 0 then (if x & 0x01 != 0 then 0xcf else 0x58) else (if x & 0x01 != 0 then 0x4c else 0x4a)
              else
                if x & 0x02 != 0 then (if x & 0x01 != 0 then 0x39 else 0xbe) else (if x & 0x01 != 0 then 0xcb else 0x6a)
            else
              if x & 0x04 != 0 then
                if x & 0x02 != 0 then (if x & 0x01 != 0 then 0x5b else 0xb1) else (if x & 0x01 != 0 then 0xfc else 0x20)
              else
                if x & 0x02 != 0 then (if x & 0x01 != 0 then 0xed else 0x00) else (if x & 0x01 != 0 then 0xd1 else 0x53)
          else
            if x & 0x08 != 0 then
              if x & 0x04 != 0 then
                if x & 0x02 != 0 then (if x & 0x01 != 0 then 0x84 else 0x2f) else (if x & 0x01 != 0 then 0xe3 else 0x29)
              else
                if x & 0x02 != 0 then (if x & 0x01 != 0 then 0xb3 else 0xd6) else (if x & 0x01 != 0 then 0x3b else 0x52)
            else
              if x & 0x04 != 0 then
                if x & 0x02 != 0 then (if x & 0x01 != 0 then 0xa0 else 0x5a) else (if x & 0x01 != 0 then 0x6e else 0x1b)
              else
                if x & 0x02 != 0 then (if x & 0x01 != 0 then 0x1a else 0x2c) else (if x & 0x01 != 0 then 0x83 else 0x09)
      else
        if x & 0x20 != 0 then
          if x & 0x10 != 0 then
            if x & 0x08 != 0 then
              if x & 0x04 != 0 then
                if x & 0x02 != 0 then (if x & 0x01 != 0 then 0x75 else 0xb2) else (if x & 0x01 != 0 then 0x27 else 0xeb)
              else
                if x & 0x02 != 0 then (if x & 0x01 != 0 then 0xe2 else 0x80) else (if x & 0x01 != 0 then 0x12 else 0x07)
            else
              if x & 0x04 != 0 then
                if x & 0x02 != 0 then (if x & 0x01 != 0 then 0x9a else 0x05) else (if x & 0x01 != 0 then 0x96 else 0x18)
              else
                if x & 0x02 != 0 then (if x & 0x01 != 0 then 0xc3 else 0x23) else (if x & 0x01 != 0 then 0xc7 else 0x04)
          else
            if x & 0x08 != 0 then
              if x & 0x04 != 0 then
                if x & 0x02 != 0 then (if x & 0x01 != 0 then 0x15 else 0x31) else (if x & 0x01 != 0 then 0xd8 else 0x71)
              else
                if x & 0x02 != 0 then (if x & 0x01 != 0 then 0xf1 else 0xe5) else (if x & 0x01 != 0 then 0xa5 else 0x34)
            else
              if x & 0x04 != 0 then
                if x & 0x02 != 0 then (if x & 0x01 != 0 then 0xcc else 0xf7) else (if x & 0x01 != 0 then 0x3f else 0x36)
              else
                if x & 0x02 != 0 then (if x & 0x01 != 0 then 0x26 else 0x93) else (if x & 0x01 != 0 then 0xfd else 0xb7)
        else
          if x & 0x10 != 0 then
            if x & 0x08 != 0 then
              if x & 0x04 != 0 then
                if x & 0x02 != 0 then (if x & 0x01 != 0 then 0xc0 else 0x72) else (if x & 0x01 != 0 then 0xa4 else 0x9c)
              else
                if x & 0x02 != 0 then (if x & 0x01 != 0 then 0xaf else 0xa2) else (if x & 0x01 != 0 then 0xd4 else 0xad)
            else
              if x & 0x04 != 0 then
                if x & 0x02 != 0 then (if x & 0x01 != 0 then 0xf0 else 0x47) else (if x & 0x01 != 0 then 0x59 else 0xfa)
              else
                if x & 0x02 != 0 then (if x & 0x01 != 0 then 0x7d else 0xc9) else (if x & 0x01 != 0 then 0x82 else 0xca)
          else
            if x & 0x08 != 0 then
              if x & 0x04 != 0 then
                if x & 0x02 != 0 then (if x & 0x01 != 0 then 0x76 else 0xab) else (if x & 0x01 != 0 then 0xd7 else 0xfe)
              else
                if x & 0x02 != 0 then (if x & 0x01 != 0 then 0x2b else 0x67) else (if x & 0x01 != 0 then 0x01 else 0x30)
            else
              if x & 0x04 != 0 then
                if x & 0x02 != 0 then (if x & 0x01 != 0 then 0xc5 else 0x6f) else (if x & 0x01 != 0 then 0x6b else 0xf2)
              else
                if x & 0x02 != 0 then (if x & 0x01 != 0 then 0x7b else 0x77) else (if x & 0x01 != 0 then 0x7c else 0x63)
  }

  /** The byte that the entries of `Td4` repeat four times. */
  function InvSbox(x: Byte): Byte {
    if x & 0x80 != 0 then
      if x & 0x40 != 0 then
        if x & 0x20 != 0 then
          if x & 0x10 != 0 then
            if x & 0x08 != 0 then
              if x & 0x04 != 0 then
                if x & 0x02 != 0 then (if x & 0x01 != 0 then 0x7d else 0x0c) else (if x & 0x01 != 0 then 0x21 else 0x55)
              else
                if x & 0x02 != 0 then (if x & 0x01 != 0 then 0x63 else 0x14) else (if x & 0x01 != 0 then 0x69 else 0xe1)
            else
              if x & 0x04 != 0 then
                if x & 0x02 != 0 then (if x & 0x01 != 0 then 0x26 else 0xd6) else (if x & 0x01 != 0 then 0x77 else 0xba)
              else
                if x & 0x02 != 0 then (if x & 0x01 != 0 then 0x7e else 0x04) else (if x & 0x01 != 0 then 0x2b else 0x17)
          else
            if x & 0x08 != 0 then
              if x & 0x04 != 0 then
                if x & 0x02 != 0 then (if x & 0x01 != 0 then 0x61 else 0x99) else (if x & 0x01 != 0 then 0x53 else 0x83)
              else
                if x & 0x02 != 0 then (if x & 0x01 != 0 then 0x3c else 0xbb) else (if x & 0x01 != 0 then 0xeb else 0xc8)
            else
              if x & 0x04 != 0 then
                if x & 0x02 != 0 then (if x & 0x01 != 0 then 0xb0 else 0xf5) else (if x & 0x01 != 0 then 0x2a else 0xae)
              else
                if x & 0x02 != 0 then (if x & 0x01 != 0 then 0x4d else 0x3b) else (if x & 0x01 != 0 then 0xe0 else 0xa0)
        else
          if x & 0x10 != 0 then
            if x & 0x08 != 0 then
              if x & 0x04 != 0 then
                if x & 0x02 != 0 then (if x & 0x01 != 0 then 0xef else 0x9c) else (if x & 0x01 != 0 then 0xc9 else 0x93)
              else
                if x & 0x02 != 0 then (if x & 0x01 != 0 then 0x9f else 0x7a) else (if x & 0x01 != 0 then 0xe5 else 0x2d)
            else
              if x & 0x04 != 0 then
                if x & 0x02 != 0 then (if x & 0x01 != 0 then 0x0d else 0x4a) else (if x & 0x01 != 0 then 0xb5 else 0x19)
              else
                if x & 0x02 != 0 then (if x & 0x01 != 0 then 0xa9 else 0x7f) else (if x & 0x01 != 0 then 0x51 else 0x60)
          else
            if x & 0x08 != 0 then
              if x & 0x04 != 0 then
                if x & 0x02 != 0 then (if x & 0x01 != 0 then 0x5f else 0xec) else (if x & 0x01 != 0 then 0x80 else 0x27)
              else
                if x & 0x02 != 0 then (if x & 0x01 != 0 then 0x59 else 0x10) else (if x & 0x01 != 0 then 0x12 else 0xb1)
            else
              if x & 0x04 != 0 then
                if x & 0x02 != 0 then (if x & 0x01 != 0 then 0x31 else 0xc7) else (if x & 0x01 != 0 then 0x07 else 0x88)
              else
                if x & 0x02 != 0 then (if x & 0x01 != 0 then 0x33 else 0xa8) else (if x & 0x01 != 0 then 0xdd else 0x1f)
      else
        if x & 0x20 != 0 then
          if x & 0x10 != 0 then
            if x & 0x08 != 0 then
              if x & 0x04 != 0 then
                if x & 0x02 != 0 then (if x & 0x01 != 0 then 0xf4 else 0x5a) else (if x & 0x01 != 0 then 0xcd else 0x78)
              else
                if x & 0x02 != 0 then (if x & 0x01 != 0 then 0xfe else 0xc0) else (if x & 0x01 != 0 then 0xdb else 0x9a)
            else
              if x & 0x04 != 0 then
                if x & 0x02 != 0 then (if x & 0x01 != 0 then 0x20 else 0x79) else (if x & 0x01 != 0 then 0xd2 else 0xc6)
              else
                if x & 0x02 != 0 then (if x & 0x01 != 0 then 0x4b else 0x3e) else (if x & 0x01 != 0 then 0x56 else 0xfc)
          else
            if x & 0x08 != 0 then
              if x & 0x04 != 0 then
                if x & 0x02 != 0 then (if x & 0x01 != 0 then 0x1b else 0xbe) else (if x & 0x01 != 0 then 0x18 else 0xaa)
              else
                if x & 0x02 != 0 then (if x & 0x01 != 0 then 0x0e else 0x62) else (if x & 0x01 != 0 then 0xb7 else 0x6f)
            else
              if x & 0x04 != 0 then
                if x & 0x02 != 0 then (if x & 0x01 != 0 then 0x89 else 0xc5) else (if x & 0x01 != 0 then 0x29 else 0x1d)
              else
                if x & 0x02 != 0 then (if x & 0x01 != 0 then 0x71 else 0x1a) else (if x & 0x01 != 0 then 0xf1 else 0x47)
        else
          if x & 0x10 != 0 then
            if x & 0x08 != 0 then
              if x & 0x04 != 0 then
                if x & 0x02 != 0 then (if x & 0x01 != 0 then 0x6e else 0xdf) else (if x & 0x01 != 0 then 0x75 else 0x1c)
              else
                if x & 0x02 != 0 then (if x & 0x01 != 0 then 0xe8 else 0x37) else (if x & 0x01 != 0 then 0xf9 else 0xe2)
            else
              if x & 0x04 != 0 then
                if x & 0x02 != 0 then (if x & 0x01 != 0 then 0x85 else 0x35) else (if x & 0x01 != 0 then 0xad else 0xe7)
              else
                if x & 0x02 != 0 then (if x & 0x01 != 0 then 0x22 else 0x74) else (if x & 0x01 != 0 then 0xac else 0x96)
          else
            if x & 0x08 != 0 then
              if x & 0x04 != 0 then
                if x & 0x02 != 0 then (if x & 0x01 != 0 then 0x73 else 0xe6) else (if x & 0x01 != 0 then 0xb4 else 0xf0)
              else
                if x & 0x02 != 0 then (if x & 0x01 != 0 then 0xce else 0xcf) else (if x & 0x01 != 0 then 0xf2 else 0x97)
            else
              if x & 0x04 != 0 then
                if x & 0x02 != 0 then (if x & 0x01 != 0 then 0xea else 0xdc) else (if x & 0x01 != 0 then 0x67 else 0x4f)
              else
                if x & 0x02 != 0 then (if x & 0x01 != 0 then 0x41 else 0x11) else (if x & 0x01 != 0 then 0x91 else 0x3a)
    else
      if x & 0x40 != 0 then
        if x & 0x20 != 0 then
          if x & 0x10 != 0 then
            if x & 0x08 != 0 then
              if x & 0x04 != 0 then
                if x & 0x02 != 0 then (if x & 0x01 != 0 then 0x6b else 0x8a) else (if x & 0x01 != 0 then 0x13 else 0x01)
              else
                if x & 0x02 != 0 then (if x & 0x01 != 0 then 0x03 else 0xbd) else (if x & 0x01 != 0 then 0xaf else 0xc1)
            else
              if x & 0x04 != 0 then
                if x & 0x02 != 0 then (if x & 0x01 != 0 then 0x02 else 0x0f) else (if x & 0x01 != 0 then 0x3f else 0xca)
              else
                if x & 0x02 != 0 then (if x & 0x01 != 0 then 0x8f else 0x1e) else (if x & 0x01 != 0 then 0x2c else 0xd0)
          else
            if x & 0x08 != 0 then
              if x & 0x04 != 0 then
                if x & 0x02 != 0 then (if x & 0x01 != 0 then 0x06 else 0x45) else (if x & 0x01 != 0 then 0xb3 else 0xb8)
              else
                if x & 0x02 != 0 then (if x & 0x01 != 0 then 0x05 else 0x58) else (if x & 0x01 != 0 then 0xe4 else 0xf7)
            else
              if x & 0x04 != 0 then
                if x & 0x02 != 0 then (if x & 0x01 != 0 then 0x0a else 0xd3) else (if x & 0x01 != 0 then 0xbc else 0x8c)
              else
                if x & 0x02 != 0 then (if x & 0x01 != 0 then 0x00 else 0xab) else (if x & 0x01 != 0 then 0xd8 else 0x90)
        else
          if x & 0x10 != 0 then
            if x & 0x08 != 0 then
              if x & 0x04 != 0 then
                if x & 0x02 != 0 then (if x & 0x01 != 0 then 0x84 else 0x9d) else (if x & 0x01 != 0 then 0x8d else 0xa7)
              else
                if x & 0x02 != 0 then (if x & 0x01 != 0 then 0x57 else 0x46) else (if x & 0x01 != 0 then 0x15 else 0x5e)
            else
              if x & 0x04 != 0 then
                if x & 0x02 != 0 then (if x & 0x01 != 0 then 0xda else 0xb9) else (if x & 0x01 != 0 then 0xed else 0xfd)
              else
                if x & 0x02 != 0 then (if x & 0x01 != 0 then 0x50 else 0x48) else (if x & 0x01 != 0 then 0x70 else 0x6c)
          else
            if x & 0x08 != 0 then
              if x & 0x04 != 0 then
                if x & 0x02 != 0 then (if x & 0x01 != 0 then 0x92 else 0xb6) else (if x & 0x01 != 0 then 0x65 else 0x5d)
              else
                if x & 0x02 != 0 then (if x & 0x01 != 0 then 0xcc else 0x5c) else (if x & 0x01 != 0 then 0xa4 else 0xd4)
            else
              if x & 0x04 != 0 then
                if x & 0x02 != 0 then (if x & 0x01 != 0 then 0x16 else 0x98) else (if x & 0x01 != 0 then 0x68 else 0x86)
              else
                if x & 0x02 != 0 then (if x & 0x01 != 0 then 0x64 else 0xf6) else (if x & 0x01 != 0 then 0xf8 else 0x72)
      else
        if x & 0x20 != 0 then
          if x & 0x10 != 0 then
            if x & 0x08 != 0 then
              if x & 0x04 != 0 then
                if x & 0x02 != 0 then (if x & 0x01 != 0 then 0x25 else 0xd1) else (if x & 0x01 != 0 then 0x8b else 0x6d)
              else
                if x & 0x02 != 0 then (if x & 0x01 != 0 then 0x49 else 0xa2) else (if x & 0x01 != 0 then 0x5b else 0x76)
            else
              if x & 0x04 != 0 then
                if x & 0x02 != 0 then (if x & 0x01 != 0 then 0xb2 else 0x24) else (if x & 0x01 != 0 then 0xd9 else 0x28)
              else
                if x & 0x02 != 0 then (if x & 0x01 != 0 then 0x66 else 0xa1) else (if x & 0x01 != 0 then 0x2e else 0x08)
          else
            if x & 0x08 != 0 then
              if x & 0x04 != 0 then
                if x & 0x02 != 0 then (if x & 0x01 != 0 then 0x4e else 0xc3) else (if x & 0x01 != 0 then 0xfa else 0x42)
              else
                if x & 0x02 != 0 then (if x & 0x01 != 0 then 0x0b else 0x95) else (if x & 0x01 != 0 then 0x4c else 0xee)
            else
              if x & 0x04 != 0 then
                if x & 0x02 != 0 then (if x & 0x01 != 0 then 0x3d else 0x23) else (if x & 0x01 != 0 then 0xc2 else 0xa6)
              else
                if x & 0x02 != 0 then (if x & 0x01 != 0 then 0x32 else 0x94) else (if x & 0x01 != 0 then 0x7b else 0x54)
        else
          if x & 0x10 != 0 then
            if x & 0x08 != 0 then
              if x & 0x04 != 0 then
                if x & 0x02 != 0 then (if x & 0x01 != 0 then 0xcb else 0xe9) else (if x & 0x01 != 0 then 0xde else 0xc4)
              else
                if x & 0x02 != 0 then (if x & 0x01 != 0 then 0x44 else 0x43) else (if x & 0x01 != 0 then 0x8e else 0x34)
            else
              if x & 0x04 != 0 then
                if x & 0x02 != 0 then (if x & 0x01 != 0 then 0x87 else 0xff) else (if x & 0x01 != 0 then 0x2f else 0x9b)
              else
                if x & 0x02 != 0 then (if x & 0x01 != 0 then 0x82 else 0x39) else (if x & 0x01 != 0 then 0xe3 else 0x7c)
          else
            if x & 0x08 != 0 then
              if x & 0x04 != 0 then
                if x & 0x02 != 0 then (if x & 0x01 != 0 then 0xfb else 0xd7) else (if x & 0x01 != 0 then 0xf3 else 0x81)
              else
                if x & 0x02 != 0 then (if x & 0x01 != 0 then 0x9e else 0xa3) else (if x & 0x01 != 0 then 0x40 else 0xbf)
            else
              if x & 0x04 != 0 then
                if x & 0x02 != 0 then (if x & 0x01 != 0 then 0x38 else 0xa5) else (if x & 0x01 != 0 then 0x36 else 0x30)
              else
                if x & 0x02 != 0 then (if x & 0x01 != 0 then 0xd5 else 0x6a) else (if x & 0x01 != 0 then 0x09 else 0x52)
  }

  lemma InvSboxOfSbox(x: Byte)
    ensures InvSbox(Sbox(x)) == x
  {
  }

  // ----- the substitution of section 5.1.1 of FIPS 197 -----

  function Times(a: Byte, b: Byte, mask: Byte): Byte { if b & mask != 0 then a else 0 }

  function Xtime2(a: Byte): Byte { Xtime(Xtime(a)) }

  function Xtime4(a: Byte): Byte { Xtime2(Xtime2(a)) }

  /** The product in the field. */
  function Product(a: Byte, b: Byte): Byte {
    Times(a, b, 0x01) ^ Times(Xtime(a), b, 0x02) ^ Times(Xtime2(a), b, 0x04) ^ Times(Xtime(Xtime2(a)), b, 0x08) ^
    Times(Xtime4(a), b, 0x10) ^ Times(Xtime(Xtime4(a)), b, 0x20) ^ Times(Xtime2(Xtime4(a)), b, 0x40) ^
    Times(Xtime(Xtime2(Xtime4(a))), b, 0x80)
  }

  /** The affine transformation, and its inverse. */
  function Affine(b: Byte): Byte {
    b ^ ((b << 1) | (b >> 7)) ^ ((b << 2) | (b >> 6)) ^ ((b << 3) | (b >> 5)) ^ ((b << 4) | (b >> 4)) ^ 0x63
  }

  function Unaffine(s: Byte): Byte {
    ((s << 1) | (s >> 7)) ^ ((s << 3) | (s >> 5)) ^ ((s << 6) | (s >> 2)) ^ 0x05
  }

  /** `y` is the inverse of `x` in the field, 0 being its own. */
  predicate IsInverse(x: Byte, y: Byte) {
    if x == 0 then y == 0 else Product(x, y) == 1
  }

  /** The S-box is the field inverse followed by the affine transformation. */
  lemma SboxIsSubBytes(x: Byte)
    ensures IsInverse(x, Unaffine(Sbox(x))) && Sbox(x) == Affine(Unaffine(Sbox(x)))
  {
  }
}
