/** The rounds of AES: the transformations of FIPS 197 and the table form of src/aes.c.

    The source only shifts and masks 32-bit words by whole bytes and adds them with `^`, so a word is
    its four bytes. */
module AesRounds {
  import opened AesField

  /** A 32-bit word, most significant byte first; a column of the state. */
  datatype Word = Word(b3: Byte, b2: Byte, b1: Byte, b0: Byte)

  /** The state: the four words `s0`..`s3` of the source. */
  datatype State = State(s0: Word, s1: Word, s2: Word, s3: Word)

  /** `u ^ v` on words. */
  function XorW(u: Word, v: Word): Word {
    Word(Add(u.b3, v.b3), Add(u.b2, v.b2), Add(u.b1, v.b1), Add(u.b0, v.b0))
  }

  lemma XorWTwice(u: Word, k: Word)
    ensures XorW(XorW(u, k), k) == u
  {
    hide Add;
    AddTwice(u.b3, k.b3);
    AddTwice(u.b2, k.b2);
    AddTwice(u.b1, k.b1);
    AddTwice(u.b0, k.b0);
  }

  // ----- one column, sections 5.1.3 and 5.3.3 of FIPS 197 -----

  function MixColumn(w: Word): Word {
    Word(MixRow(w.b3, w.b2, w.b1, w.b0), MixRow(w.b2, w.b1, w.b0, w.b3),
         MixRow(w.b1, w.b0, w.b3, w.b2), MixRow(w.b0, w.b3, w.b2, w.b1))
  }

  function InvMixColumn(w: Word): Word {
    Word(InvMixRow(w.b3, w.b2, w.b1, w.b0), InvMixRow(w.b2, w.b1, w.b0, w.b3),
         InvMixRow(w.b1, w.b0, w.b3, w.b2), InvMixRow(w.b0, w.b3, w.b2, w.b1))
  }

  lemma InvMixColumnOfXor(u: Word, v: Word)
    ensures InvMixColumn(XorW(u, v)) == XorW(InvMixColumn(u), InvMixColumn(v))
  {
    hide InvMixRow, Add;
    InvMixRowOfSum(u.b3, u.b2, u.b1, u.b0, v.b3, v.b2, v.b1, v.b0);
    InvMixRowOfSum(u.b2, u.b1, u.b0, u.b3, v.b2, v.b1, v.b0, v.b3);
    InvMixRowOfSum(u.b1, u.b0, u.b3, u.b2, v.b1, v.b0, v.b3, v.b2);
    InvMixRowOfSum(u.b0, u.b3, u.b2, u.b1, v.b0, v.b3, v.b2, v.b1);
  }

  lemma InvMixColumnOfMixColumn(w: Word)
    ensures InvMixColumn(MixColumn(w)) == w
  {
    hide InvMixRow, MixRow;
    InvMixRowOfMixRow(w.b3, w.b2, w.b1, w.b0);
    InvMixRowOfMixRow(w.b2, w.b1, w.b0, w.b3);
    InvMixRowOfMixRow(w.b1, w.b0, w.b3, w.b2);
    InvMixRowOfMixRow(w.b0, w.b3, w.b2, w.b1);
  }

  lemma InvMixColumnOfRound(w: Word, k: Word)
    ensures InvMixColumn(XorW(MixColumn(w), k)) == XorW(w, InvMixColumn(k))
  {
    hide *;
    InvMixColumnOfXor(MixColumn(w), k);
    InvMixColumnOfMixColumn(w);
  }

  // ----- the whole state, sections 5.1 and 5.3 of FIPS 197 -----

  function SubWord(w: Word): Word {
    Word(Sbox(w.b3), Sbox(w.b2), Sbox(w.b1), Sbox(w.b0))
  }

  function InvSubWord(w: Word): Word {
    Word(InvSbox(w.b3), InvSbox(w.b2), InvSbox(w.b1), InvSbox(w.b0))
  }

  function SubBytes(s: State): State {
    State(SubWord(s.s0), SubWord(s.s1), SubWord(s.s2), SubWord(s.s3))
  }

  function InvSubBytes(s: State): State {
    State(InvSubWord(s.s0), InvSubWord(s.s1), InvSubWord(s.s2), InvSubWord(s.s3))
  }

  /** Row `r` moves `r` columns to the left. */
  function ShiftRows(s: State): State {
    State(Word(s.s0.b3, s.s1.b2, s.s2.b1, s.s3.b0), Word(s.s1.b3, s.s2.b2, s.s3.b1, s.s0.b0),
          Word(s.s2.b3, s.s3.b2, s.s0.b1, s.s1.b0), Word(s.s3.b3, s.s0.b2, s.s1.b1, s.s2.b0))
  }

  /** Row `r` moves `r` columns to the right. */
  function InvShiftRows(s: State): State {
    State(Word(s.s0.b3, s.s3.b2, s.s2.b1, s.s1.b0), Word(s.s1.b3, s.s0.b2, s.s3.b1, s.s2.b0),
          Word(s.s2.b3, s.s1.b2, s.s0.b1, s.s3.b0), Word(s.s3.b3, s.s2.b2, s.s1.b1, s.s0.b0))
  }

  function MixColumns(s: State): State {
    State(MixColumn(s.s0), MixColumn(s.s1), MixColumn(s.s2), MixColumn(s.s3))
  }

  function InvMixColumns(s: State): State {
    State(InvMixColumn(s.s0), InvMixColumn(s.s1), InvMixColumn(s.s2), InvMixColumn(s.s3))
  }

  function AddRoundKey(s: State, k: State): State {
    State(XorW(s.s0, k.s0), XorW(s.s1, k.s1), XorW(s.s2, k.s2), XorW(s.s3, k.s3))
  }

  /** Byte `r` of a word, the most significant one first. */
  function Row(w: Word, r: nat): Byte
    requires r < 4
  {
    if r == 0 then w.b3 else if r == 1 then w.b2 else if r == 2 then w.b1 else w.b0
  }

  function Column(s: State, c: nat): Word
    requires c < 4
  {
    if c == 0 then s.s0 else if c == 1 then s.s1 else if c == 2 then s.s2 else s.s3
  }

  /** The byte in row `r` and column `c` of the state. */
  function At(s: State, r: nat, c: nat): Byte
    requires r < 4 && c < 4
  {
    Row(Column(s, c), r)
  }

  /** The transformations by row and column, as FIPS 197 states them. */
  lemma ShiftRowsMoves(s: State, r: nat, c: nat)
    requires r < 4 && c < 4
    ensures At(ShiftRows(s), r, c) == At(s, r, (c + r) % 4)
    ensures At(InvShiftRows(s), r, (c + r) % 4) == At(s, r, c)
  {
  }

  lemma MixColumnsMixes(s: State, r: nat, c: nat)
    requires r < 4 && c < 4
    ensures At(MixColumns(s), r, c) ==
            MixRow(At(s, r, c), At(s, (r + 1) % 4, c), At(s, (r + 2) % 4, c), At(s, (r + 3) % 4, c))
  {
    hide MixRow;
  }

  function SubShift(s: State): State {
    ShiftRows(SubBytes(s))
  }

  function InvSubShift(s: State): State {
    InvShiftRows(InvSubBytes(s))
  }

  function Round(s: State, k: State): State {
    AddRoundKey(MixColumns(SubShift(s)), k)
  }

  function FinalRound(s: State, k: State): State {
    AddRoundKey(SubShift(s), k)
  }

  /** A round of the equivalent inverse cipher, section 5.3.5 of FIPS 197. */
  function InvRound(s: State, k: State): State {
    AddRoundKey(InvMixColumns(InvSubShift(s)), k)
  }

  function InvFinalRound(s: State, k: State): State {
    AddRoundKey(InvSubShift(s), k)
  }

  lemma InvSubWordOfSubWord(w: Word)
    ensures InvSubWord(SubWord(w)) == w
  {
    hide Sbox, InvSbox;
    InvSboxOfSbox(w.b3);
    InvSboxOfSbox(w.b2);
    InvSboxOfSbox(w.b1);
    InvSboxOfSbox(w.b0);
  }

  lemma SubThenShift(s: State)
    ensures ShiftRows(SubBytes(s)) == SubBytes(ShiftRows(s))
  {
    hide Sbox;
  }

  lemma InvSubShiftOfSubShift(s: State)
    ensures InvSubShift(SubShift(s)) == s
  {
    hide SubWord, InvSubWord;
    assert SubShift(s) == SubBytes(ShiftRows(s)) by { SubThenShift(s); }
    var t := ShiftRows(s);
    InvSubWordOfSubWord(t.s0);
    InvSubWordOfSubWord(t.s1);
    InvSubWordOfSubWord(t.s2);
    InvSubWordOfSubWord(t.s3);
  }

  lemma AddRoundKeyTwice(s: State, k: State)
    ensures AddRoundKey(AddRoundKey(s, k), k) == s
  {
    hide XorW;
    XorWTwice(s.s0, k.s0);
    XorWTwice(s.s1, k.s1);
    XorWTwice(s.s2, k.s2);
    XorWTwice(s.s3, k.s3);
  }

  lemma InvMixColumnsOfRound(s: State, k: State)
    ensures InvMixColumns(AddRoundKey(MixColumns(s), k)) == AddRoundKey(s, InvMixColumns(k))
  {
    hide XorW, MixColumn, InvMixColumn;
    InvMixColumnOfRound(s.s0, k.s0);
    InvMixColumnOfRound(s.s1, k.s1);
    InvMixColumnOfRound(s.s2, k.s2);
    InvMixColumnOfRound(s.s3, k.s3);
  }

  /** One round of the equivalent inverse cipher takes the substituted state back over one round. */
  lemma InvRoundUndoesRound(s: State, k: State)
    ensures InvRound(SubShift(Round(s, k)), InvMixColumns(k)) == SubShift(s)
  {
    hide SubShift, InvSubShift, MixColumns, InvMixColumns, AddRoundKey;
    InvSubShiftOfSubShift(Round(s, k));
    InvMixColumnsOfRound(SubShift(s), k);
    AddRoundKeyTwice(SubShift(s), InvMixColumns(k));
  }

  // ----- the tables that the comment at src/aes.c:46-58 defines -----

  /** The multiples of a substituted byte that an entry of the encryption tables holds. */
  function Enc0(s: Byte): Word { Word(Mul(s, 2), s, s, Mul(s, 3)) }

  function Enc1(s: Byte): Word { Word(Mul(s, 3), Mul(s, 2), s, s) }

  function Enc2(s: Byte): Word { Word(s, Mul(s, 3), Mul(s, 2), s) }

  function Enc3(s: Byte): Word { Word(s, s, Mul(s, 3), Mul(s, 2)) }

  /** And those of the decryption tables. */
  function Dec0(s: Byte): Word { Word(Mul(s, 14), Mul(s, 9), Mul(s, 13), Mul(s, 11)) }

  function Dec1(s: Byte): Word { Word(Mul(s, 11), Mul(s, 14), Mul(s, 9), Mul(s, 13)) }

  function Dec2(s: Byte): Word { Word(Mul(s, 13), Mul(s, 11), Mul(s, 14), Mul(s, 9)) }

  function Dec3(s: Byte): Word { Word(Mul(s, 9), Mul(s, 13), Mul(s, 11), Mul(s, 14)) }

  function Te0(x: Byte): Word { Enc0(Sbox(x)) }

  function Te1(x: Byte): Word { Enc1(Sbox(x)) }

  function Te2(x: Byte): Word { Enc2(Sbox(x)) }

  function Te3(x: Byte): Word { Enc3(Sbox(x)) }

  function Td0(x: Byte): Word { Dec0(InvSbox(x)) }

  function Td1(x: Byte): Word { Dec1(InvSbox(x)) }

  function Td2(x: Byte): Word { Dec2(InvSbox(x)) }

  function Td3(x: Byte): Word { Dec3(InvSbox(x)) }

  /** Four words added up in the order of the source. */
  function SumW(t: Word, u: Word, v: Word, w: Word): Word {
    XorW(XorW(XorW(t, u), v), w)
  }

  lemma EncColumn(w: Word)
    ensures SumW(Enc0(w.b3), Enc1(w.b2), Enc2(w.b1), Enc3(w.b0)) == MixColumn(w)
  {
    hide Mul, Add;
    RotateSum(w.b3, Mul(w.b2, 2), Mul(w.b1, 3), w.b0);
    RotateSum(w.b3, w.b2, Mul(w.b1, 2), Mul(w.b0, 3));
    RotateSum(w.b2, Mul(w.b1, 2), Mul(w.b0, 3), w.b3);
    RotateSum(Mul(w.b0, 2), Mul(w.b3, 3), w.b2, w.b1);
  }

  lemma DecColumn(w: Word)
    ensures SumW(Dec0(w.b3), Dec1(w.b2), Dec2(w.b1), Dec3(w.b0)) == InvMixColumn(w)
  {
    hide Mul, Add;
    RotateSum(Mul(w.b3, 9), Mul(w.b2, 14), Mul(w.b1, 11), Mul(w.b0, 13));
    RotateSum(Mul(w.b3, 13), Mul(w.b2, 9), Mul(w.b1, 14), Mul(w.b0, 11));
    RotateSum(Mul(w.b2, 9), Mul(w.b1, 14), Mul(w.b0, 11), Mul(w.b3, 13));
    RotateSum(Mul(w.b0, 14), Mul(w.b3, 11), Mul(w.b2, 13), Mul(w.b1, 9));
  }

  /** One full round of `AES_encrypt`. */
  function TableRound(s: State, k: State): State {
    State(XorW(SumW(Te0(s.s0.b3), Te1(s.s1.b2), Te2(s.s2.b1), Te3(s.s3.b0)), k.s0),
          XorW(SumW(Te0(s.s1.b3), Te1(s.s2.b2), Te2(s.s3.b1), Te3(s.s0.b0)), k.s1),
          XorW(SumW(Te0(s.s2.b3), Te1(s.s3.b2), Te2(s.s0.b1), Te3(s.s1.b0)), k.s2),
          XorW(SumW(Te0(s.s3.b3), Te1(s.s0.b2), Te2(s.s1.b1), Te3(s.s2.b0)), k.s3))
  }

  /** One full round of `AES_decrypt`. */
  function InvTableRound(s: State, k: State): State {
    State(XorW(SumW(Td0(s.s0.b3), Td1(s.s3.b2), Td2(s.s2.b1), Td3(s.s1.b0)), k.s0),
          XorW(SumW(Td0(s.s1.b3), Td1(s.s0.b2), Td2(s.s3.b1), Td3(s.s2.b0)), k.s1),
          XorW(SumW(Td0(s.s2.b3), Td1(s.s1.b2), Td2(s.s0.b1), Td3(s.s3.b0)), k.s2),
          XorW(SumW(Td0(s.s3.b3), Td1(s.s2.b2), Td2(s.s1.b1), Td3(s.s0.b0)), k.s3))
  }

  lemma TableRoundIsRound(s: State, k: State)
    ensures TableRound(s, k) == Round(s, k)
  {
    hide Sbox, XorW, SumW, MixColumn, Enc0, Enc1, Enc2, Enc3;
    var t := SubShift(s);
    EncColumn(t.s0);
    EncColumn(t.s1);
    EncColumn(t.s2);
    EncColumn(t.s3);
  }

  lemma InvTableRoundIsInvRound(s: State, k: State)
    ensures InvTableRound(s, k) == InvRound(s, k)
  {
    hide InvSbox, XorW, SumW, InvMixColumn, Dec0, Dec1, Dec2, Dec3;
    var t := InvSubShift(s);
    DecColumn(t.s0);
    DecColumn(t.s1);
    DecColumn(t.s2);
    DecColumn(t.s3);
  }

  /** `Td0[Te4[x >> 24] & 0xff] ^ ..`, which `AES_set_decrypt_key` applies to the round keys. */
  function TableInvMix(w: Word): Word {
    SumW(Td0(Sbox(w.b3)), Td1(Sbox(w.b2)), Td2(Sbox(w.b1)), Td3(Sbox(w.b0)))
  }

  lemma TableInvMixIsInvMix(w: Word)
    ensures TableInvMix(w) == InvMixColumn(w)
  {
    hide Sbox, InvSbox, SumW, InvMixColumn, Dec0, Dec1, Dec2, Dec3;
    InvSboxOfSbox(w.b3);
    InvSboxOfSbox(w.b2);
    InvSboxOfSbox(w.b1);
    InvSboxOfSbox(w.b0);
    DecColumn(w);
  }

  // ----- masked table entries -----

  /** `Te4[x] & 0xff000000` and its like keep one byte of a word. */
  function In3(b: Byte): Word { Word(b, 0, 0, 0) }

  function In2(b: Byte): Word { Word(0, b, 0, 0) }

  function In1(b: Byte): Word { Word(0, 0, b, 0) }

  function In0(b: Byte): Word { Word(0, 0, 0, b) }

  lemma MaskedSum(w: Word)
    ensures SumW(In3(w.b3), In2(w.b2), In1(w.b1), In0(w.b0)) == w
  {
    hide Add;
    AddZero(w.b3);
    AddZero(w.b2);
    AddZero(w.b1);
    AddZero(w.b0);
    AddZero(0);
  }

  /** The last round of `AES_encrypt`. */
  function TableFinalRound(s: State, k: State): State {
    State(XorW(SumW(In3(Sbox(s.s0.b3)), In2(Sbox(s.s1.b2)), In1(Sbox(s.s2.b1)), In0(Sbox(s.s3.b0))), k.s0),
          XorW(SumW(In3(Sbox(s.s1.b3)), In2(Sbox(s.s2.b2)), In1(Sbox(s.s3.b1)), In0(Sbox(s.s0.b0))), k.s1),
          XorW(SumW(In3(Sbox(s.s2.b3)), In2(Sbox(s.s3.b2)), In1(Sbox(s.s0.b1)), In0(Sbox(s.s1.b0))), k.s2),
          XorW(SumW(In3(Sbox(s.s3.b3)), In2(Sbox(s.s0.b2)), In1(Sbox(s.s1.b1)), In0(Sbox(s.s2.b0))), k.s3))
  }

  /** The last round of `AES_decrypt`. */
  function InvTableFinalRound(s: State, k: State): State {
    State(XorW(SumW(In3(InvSbox(s.s0.b3)), In2(InvSbox(s.s3.b2)), In1(InvSbox(s.s2.b1)), In0(InvSbox(s.s1.b0))), k.s0),
          XorW(SumW(In3(InvSbox(s.s1.b3)), In2(InvSbox(s.s0.b2)), In1(InvSbox(s.s3.b1)), In0(InvSbox(s.s2.b0))), k.s1),
          XorW(SumW(In3(InvSbox(s.s2.b3)), In2(InvSbox(s.s1.b2)), In1(InvSbox(s.s0.b1)), In0(InvSbox(s.s3.b0))), k.s2),
          XorW(SumW(In3(InvSbox(s.s3.b3)), In2(InvSbox(s.s2.b2)), In1(InvSbox(s.s1.b1)), In0(InvSbox(s.s0.b0))), k.s3))
  }

  lemma TableFinalRoundIsFinalRound(s: State, k: State)
    ensures TableFinalRound(s, k) == FinalRound(s, k)
  {
    hide Sbox, XorW, SumW, In3, In2, In1, In0;
    var t := SubShift(s);
    MaskedSum(t.s0);
    MaskedSum(t.s1);
    MaskedSum(t.s2);
    MaskedSum(t.s3);
  }

  lemma InvTableFinalRoundIsInvFinalRound(s: State, k: State)
    ensures InvTableFinalRound(s, k) == InvFinalRound(s, k)
  {
    hide InvSbox, XorW, SumW, In3, In2, In1, In0;
    var t := InvSubShift(s);
    MaskedSum(t.s0);
    MaskedSum(t.s1);
    MaskedSum(t.s2);
    MaskedSum(t.s3);
  }
}
