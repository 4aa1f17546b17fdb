/** Block encryption, block decryption and key expansion as FIPS 197 defines them (src/aes.c:722-1261). */
module AesCipher {
  import opened AesField
  import opened AesRounds

  // ----- blocks and states -----

  type Block = b: seq<Byte> | |b| == 16 witness seq(16, _ => 0)

  /** `GETU32` at byte `at`. */
  function GetU32(s: seq<Byte>, at: nat): Word
    requires at + 4 <= |s|
  {
    Word(s[at], s[at + 1], s[at + 2], s[at + 3])
  }

  /** `PUTU32` */
  function PutU32(w: Word): seq<Byte> {
    [w.b3, w.b2, w.b1, w.b0]
  }

  function StateOf(b: Block): State {
    State(GetU32(b, 0), GetU32(b, 4), GetU32(b, 8), GetU32(b, 12))
  }

  function BlockOf(s: State): Block {
    PutU32(s.s0) + PutU32(s.s1) + PutU32(s.s2) + PutU32(s.s3)
  }

  lemma BlockOfStateOf(b: Block)
    ensures BlockOf(StateOf(b)) == b
  {
  }

  lemma StateOfBlockOf(s: State)
    ensures StateOf(BlockOf(s)) == s
  {
  }

  lemma WordBytes(s: seq<Byte>, at: nat, w: Word, r: nat)
    requires r < 4 && at + 4 <= |s|
    ensures Row(GetU32(s, at), r) == s[at + r]
    ensures PutU32(w)[r] == Row(w, r)
  {
  }

  /** Section 3.4 of FIPS 197: byte `r + 4 * c` of a block is in row `r` and column `c` of the state. */
  lemma StateBytes(b: Block, r: nat, c: nat)
    requires r < 4 && c < 4
    ensures At(StateOf(b), r, c) == b[r + 4 * c]
  {
    hide Row, GetU32;
    WordBytes(b, 4 * c, GetU32(b, 4 * c), r);
  }

  lemma BlockBytes(s: State, r: nat, c: nat)
    requires r < 4 && c < 4
    ensures BlockOf(s)[r + 4 * c] == At(s, r, c)
  {
    StateOfBlockOf(s);
    hide StateOf, BlockOf;
    StateBytes(BlockOf(s), r, c);
  }

  // ----- the cipher and its equivalent inverse, sections 5.1 and 5.3.5 of FIPS 197 -----

  /** Round key `r` of the schedule `w`. */
  function RoundKey(w: seq<Word>, r: nat): State
    requires 4 * r + 4 <= |w|
  {
    State(w[4 * r], w[4 * r + 1], w[4 * r + 2], w[4 * r + 3])
  }

  function Rounds(w: seq<Word>, s: State, n: nat): State
    requires 4 * n + 4 <= |w|
  {
    if n == 0 then AddRoundKey(s, RoundKey(w, 0)) else Round(Rounds(w, s, n - 1), RoundKey(w, n))
  }

  function InvRounds(w: seq<Word>, s: State, n: nat): State
    requires 4 * n + 4 <= |w|
  {
    if n == 0 then AddRoundKey(s, RoundKey(w, 0)) else InvRound(InvRounds(w, s, n - 1), RoundKey(w, n))
  }

  function Cipher(w: seq<Word>, nr: nat, b: Block): Block
    requires 1 <= nr && 4 * nr + 4 <= |w|
  {
    BlockOf(FinalRound(Rounds(w, StateOf(b), nr - 1), RoundKey(w, nr)))
  }

  function InvCipher(w: seq<Word>, nr: nat, b: Block): Block
    requires 1 <= nr && 4 * nr + 4 <= |w|
  {
    BlockOf(InvFinalRound(InvRounds(w, StateOf(b), nr - 1), RoundKey(w, nr)))
  }

  /** Round key `r` for decryption: the keys in reverse order, with InvMixColumns applied to all but
      the first and the last. */
  function InvKey(ek: seq<Word>, nr: nat, r: nat): State
    requires r <= nr && 4 * nr + 4 <= |ek|
  {
    if 0 < r < nr then InvMixColumns(RoundKey(ek, nr - r)) else RoundKey(ek, nr - r)
  }

  ghost predicate Reversed(ek: seq<Word>, dk: seq<Word>, nr: nat)
    requires 4 * nr + 4 <= |ek| && 4 * nr + 4 <= |dk|
  {
    forall r :: 0 <= r <= nr ==> RoundKey(dk, r) == InvKey(ek, nr, r)
  }

  /** After `n` rounds of decryption: the substituted state that encryption had `n` rounds before its end. */
  lemma {:induction false} InvRoundsUndoRounds(ek: seq<Word>, dk: seq<Word>, nr: nat, s: State, n: nat)
    requires 1 <= nr && 4 * nr + 4 <= |ek| && 4 * nr + 4 <= |dk| && Reversed(ek, dk, nr) && n < nr
    ensures InvRounds(dk, FinalRound(Rounds(ek, s, nr - 1), RoundKey(ek, nr)), n)
         == SubShift(Rounds(ek, s, nr - 1 - n))
  {
    hide RoundKey, Round, InvRound, SubShift, AddRoundKey, InvMixColumns;
    assert RoundKey(dk, n) == InvKey(ek, nr, n);
    if n == 0 {
      AddRoundKeyTwice(SubShift(Rounds(ek, s, nr - 1)), RoundKey(ek, nr));
    } else {
      InvRoundsUndoRounds(ek, dk, nr, s, n - 1);
      InvRoundUndoesRound(Rounds(ek, s, nr - 1 - n), RoundKey(ek, nr - n));
    }
  }

  /** Decryption undoes encryption, for every number of rounds and every schedule. */
  lemma InvCipherUndoesCipher(ek: seq<Word>, dk: seq<Word>, nr: nat, b: Block)
    requires 1 <= nr && 4 * nr + 4 <= |ek| && 4 * nr + 4 <= |dk| && Reversed(ek, dk, nr)
    ensures InvCipher(dk, nr, Cipher(ek, nr, b)) == b
  {
    hide RoundKey, Round, InvRound, SubShift, InvSubShift, AddRoundKey, InvMixColumns, StateOf, BlockOf, FinalRound;
    var s := StateOf(b);
    StateOfBlockOf(FinalRound(Rounds(ek, s, nr - 1), RoundKey(ek, nr)));
    InvRoundsUndoRounds(ek, dk, nr, s, nr - 1);
    assert RoundKey(dk, nr) == InvKey(ek, nr, nr);
    InvSubShiftOfSubShift(Rounds(ek, s, 0));
    AddRoundKeyTwice(s, RoundKey(ek, 0));
    BlockOfStateOf(b);
  }

  // ----- key expansion, section 5.2 of FIPS 197 -----

  function RotWord(w: Word): Word {
    Word(w.b2, w.b1, w.b0, w.b3)
  }

  /** Byte `r` of the rotated word is the next byte of the word. */
  lemma RotWordMoves(w: Word, r: nat)
    requires r < 4
    ensures Row(RotWord(w), r) == Row(w, (r + 1) % 4)
  {
  }

  /** {02} to the power `i`. */
  function Power(i: nat): Byte {
    if i == 0 then 1 else Xtime(Power(i - 1))
  }

  function Rcon(j: nat): Word
    requires 1 <= j
  {
    In3(Power(j - 1))
  }

  /** Word `i` of the schedule for a key of `nk` words. */
  function Expanded(key: seq<Byte>, nk: nat, i: nat): Word
    requires 4 <= nk && |key| == 4 * nk
  {
    if i < nk then GetU32(key, 4 * i)
    else
      var temp := Expanded(key, nk, i - 1);
      XorW(Expanded(key, nk, i - nk),
           if i % nk == 0 then XorW(SubWord(RotWord(temp)), Rcon(i / nk))
           else if nk > 6 && i % nk == 4 then SubWord(temp) else temp)
  }

  const RCON: seq<bv8> := [0x01, 0x02, 0x04, 0x08, 0x10, 0x20, 0x40, 0x80, 0x1b, 0x36]

  /** The table `rcon` holds the round constants. */
  lemma {:induction false} RconTable(i: nat)
    requires i < 10
    ensures In3(RCON[i]) == Rcon(i + 1)
  {
    if i > 0 {
      RconTable(i - 1);
      assert Xtime(RCON[i - 1]) == RCON[i];
    }
  }

  /** `temp` rotated, substituted and added with a round constant, in the order of the source. */
  function KeyCore(w: Word, temp: Word, rcon: Word): Word {
    XorW(XorW(XorW(XorW(XorW(w, In3(Sbox(temp.b2))), In2(Sbox(temp.b1))), In1(Sbox(temp.b0))), In0(Sbox(temp.b3))), rcon)
  }

  /** `temp` substituted and added. */
  function KeySub(w: Word, temp: Word): Word {
    XorW(XorW(XorW(XorW(w, In3(Sbox(temp.b3))), In2(Sbox(temp.b2))), In1(Sbox(temp.b1))), In0(Sbox(temp.b0)))
  }

  lemma MaskedXors(w: Word, u: Word)
    ensures XorW(XorW(XorW(XorW(w, In3(u.b3)), In2(u.b2)), In1(u.b1)), In0(u.b0)) == XorW(w, u)
  {
    hide Add;
    AddZero(w.b3);
    AddZero(w.b2);
    AddZero(w.b1);
    AddZero(w.b0);
    AddZero(Add(w.b3, u.b3));
    AddZero(Add(w.b2, u.b2));
    AddZero(Add(w.b1, u.b1));
  }

  lemma XorWAssociative(u: Word, v: Word, w: Word)
    ensures XorW(XorW(u, v), w) == XorW(u, XorW(v, w))
  {
    hide Add;
    AddAssociative(u.b3, v.b3, w.b3);
    AddAssociative(u.b2, v.b2, w.b2);
    AddAssociative(u.b1, v.b1, w.b1);
    AddAssociative(u.b0, v.b0, w.b0);
  }

  lemma KeyCoreIsExpansion(w: Word, temp: Word, rcon: Word)
    ensures KeyCore(w, temp, rcon) == XorW(w, XorW(SubWord(RotWord(temp)), rcon))
  {
    hide Sbox, XorW, In3, In2, In1, In0;
    MaskedXors(w, SubWord(RotWord(temp)));
    XorWAssociative(w, SubWord(RotWord(temp)), rcon);
  }

  lemma KeySubIsExpansion(w: Word, temp: Word)
    ensures KeySub(w, temp) == XorW(w, SubWord(temp))
  {
    hide Sbox, XorW, In3, In2, In1, In0;
    MaskedXors(w, SubWord(temp));
  }

  /** What the source computes for the word that starts a group. */
  lemma CoreWord(w: Word, temp: Word, key: seq<Byte>, nk: nat, n: nat, i: nat)
    requires 4 <= nk <= n && |key| == 4 * nk && w == Expanded(key, nk, n - nk) && temp == Expanded(key, nk, n - 1)
    requires n % nk == 0 && n / nk == i + 1 && i < 10
    ensures KeyCore(w, temp, In3(RCON[i])) == Expanded(key, nk, n)
  {
    hide KeyCore, SubWord, RotWord, XorW, In3, Rcon, GetU32;
    KeyCoreIsExpansion(w, temp, Rcon(i + 1));
    RconTable(i);
  }
}
