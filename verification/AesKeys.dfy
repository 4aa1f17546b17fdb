/** `AES_KEY`: the key schedules, and the block functions that use them (src/aes.c:731-1261). */
module AesKeys {
  import opened AesField
  import opened AesRounds
  import opened AesCipher

  /** The first `n` words of `rk` are the expansion of `key`. */
  ghost predicate Filled(rk: seq<Word>, key: seq<Byte>, nk: nat, n: nat)
    requires 4 <= nk && |key| == 4 * nk && n <= |rk|
  {
    forall j :: 0 <= j < n ==> rk[j] == Expanded(key, nk, j)
  }

  lemma FilledNone(rk: seq<Word>, key: seq<Byte>, nk: nat)
    requires 4 <= nk && |key| == 4 * nk
    ensures Filled(rk, key, nk, 0)
  {
  }

  predicate Supported(bits: int) {
    bits == 128 || bits == 192 || bits == 256
  }

  /** The first and the last `a` round keys have been exchanged. */
  ghost predicate Turned(ek: seq<Word>, now: seq<Word>, nr: nat, a: nat)
    requires 4 * nr + 4 <= |ek| && 4 * nr + 4 <= |now|
  {
    forall r :: 0 <= r <= nr ==> RoundKey(now, r) == RoundKey(ek, if a <= r <= nr - a then r else nr - r)
  }

  lemma TurnNone(ek: seq<Word>, nr: nat)
    requires 4 * nr + 4 <= |ek|
    ensures Turned(ek, ek, nr, 0)
  {
  }

  lemma TurnOne(ek: seq<Word>, was: seq<Word>, now: seq<Word>, nr: nat, a: nat)
    requires 4 * nr + 4 <= |ek| && 4 * nr + 4 <= |was| && 4 * nr + 4 <= |now| && 2 * a < nr
    requires Turned(ek, was, nr, a)
    requires RoundKey(now, a) == RoundKey(was, nr - a) && RoundKey(now, nr - a) == RoundKey(was, a)
    requires forall r :: 0 <= r <= nr && r != a && r != nr - a ==> RoundKey(now, r) == RoundKey(was, r)
    ensures Turned(ek, now, nr, a + 1)
  {
    hide RoundKey;
    forall r | 0 <= r <= nr ensures RoundKey(now, r) == RoundKey(ek, if a + 1 <= r <= nr - a - 1 then r else nr - r) {
      assert RoundKey(was, r) == RoundKey(ek, if a <= r <= nr - a then r else nr - r);
      if r == a {
        assert RoundKey(was, nr - a) == RoundKey(ek, nr - a);
      } else if r == nr - a {
        assert RoundKey(was, a) == RoundKey(ek, a);
      }
    }
  }

  /** The keys are in reverse order, and those between 0 and `i` have been unmixed. */
  ghost predicate Unmixed(ek: seq<Word>, now: seq<Word>, nr: nat, i: nat)
    requires 4 * nr + 4 <= |ek| && 4 * nr + 4 <= |now|
  {
    forall r :: 0 <= r <= nr ==>
      RoundKey(now, r) == if 0 < r < i then InvMixColumns(RoundKey(ek, nr - r)) else RoundKey(ek, nr - r)
  }

  lemma UnmixNone(ek: seq<Word>, now: seq<Word>, nr: nat)
    requires 4 * nr + 4 <= |ek| && 4 * nr + 4 <= |now| && nr % 2 == 0 && Turned(ek, now, nr, nr / 2)
    ensures Unmixed(ek, now, nr, 1)
  {
    hide RoundKey;
  }

  lemma UnmixOne(ek: seq<Word>, was: seq<Word>, now: seq<Word>, nr: nat, i: nat)
    requires 4 * nr + 4 <= |ek| && 4 * nr + 4 <= |was| && 4 * nr + 4 <= |now| && 0 < i < nr
    requires Unmixed(ek, was, nr, i)
    requires RoundKey(now, i) == InvMixColumns(RoundKey(was, i))
    requires forall r :: 0 <= r <= nr && r != i ==> RoundKey(now, r) == RoundKey(was, r)
    ensures Unmixed(ek, now, nr, i + 1)
  {
    hide RoundKey, InvMixColumns;
    assert RoundKey(was, i) == RoundKey(ek, nr - i);
  }

  lemma UnmixAll(ek: seq<Word>, now: seq<Word>, nr: nat)
    requires 4 * nr + 4 <= |ek| && 4 * nr + 4 <= |now| && Unmixed(ek, now, nr, nr)
    ensures Reversed(ek, now, nr)
  {
    hide RoundKey, InvMixColumns;
  }

  class AesKey {
    /** `rd_key[4 * (AES_MAXNR + 1)]` */
    const rdKey: array<Word>
    var rounds: nat

    ghost predicate Valid()
      reads this
    {
      rdKey.Length == 60 && (rounds == 10 || rounds == 12 || rounds == 14)
    }

    constructor ()
      ensures rdKey.Length == 60 && fresh(rdKey)
    {
      var zero := Word(0, 0, 0, 0);
      rdKey := new Word[60](_ => zero);
      rounds := 0;
    }

    // ----- the assignments of AES_set_encrypt_key -----

    /** `rk[n] = v` */
    method Put(ghost key: seq<Byte>, ghost nk: nat, n: nat, v: Word)
      requires 4 <= nk && |key| == 4 * nk && n < rdKey.Length && Filled(rdKey[..], key, nk, n)
      requires v == Expanded(key, nk, n)
      modifies rdKey
      ensures Filled(rdKey[..], key, nk, n + 1)
    {
      hide Expanded;
      rdKey[n] := v;
    }

    /** Words `from`..`to` come from the user's key. */
    method PutUser(key: seq<Byte>, ghost nk: nat, from: nat, to: nat)
      requires 4 <= nk && |key| == 4 * nk && from <= to <= nk <= rdKey.Length && Filled(rdKey[..], key, nk, from)
      modifies rdKey
      ensures Filled(rdKey[..], key, nk, to)
    {
      for j := from to to
        invariant Filled(rdKey[..], key, nk, j)
      {
        hide GetU32, SubWord, RotWord, XorW, Rcon;
        Put(key, nk, j, GetU32(key, 4 * j));
      }
    }

    /** A word that starts a group of `nk`. */
    method PutCore(ghost key: seq<Byte>, nk: nat, n: nat, i: nat)
      requires 4 <= nk <= n < rdKey.Length && |key| == 4 * nk && Filled(rdKey[..], key, nk, n)
      requires n % nk == 0 && n / nk == i + 1 && i < 10
      modifies rdKey
      ensures Filled(rdKey[..], key, nk, n + 1)
    {
      hide KeyCore, Expanded;
      var v := KeyCore(rdKey[n - nk], rdKey[n - 1], In3(RCON[i]));
      CoreWord(rdKey[n - nk], rdKey[n - 1], key, nk, n, i);
      Put(key, nk, n, v);
    }

    /** The fifth word of a group of eight. */
    method PutSub(ghost key: seq<Byte>, nk: nat, n: nat)
      requires 6 < nk <= n < rdKey.Length && |key| == 4 * nk && Filled(rdKey[..], key, nk, n) && n % nk == 4
      modifies rdKey
      ensures Filled(rdKey[..], key, nk, n + 1)
    {
      hide KeySub, SubWord, RotWord, XorW, Rcon, GetU32;
      var v := KeySub(rdKey[n - nk], rdKey[n - 1]);
      KeySubIsExpansion(rdKey[n - nk], rdKey[n - 1]);
      Put(key, nk, n, v);
    }

    /** Any other word. */
    method PutPlain(ghost key: seq<Byte>, nk: nat, n: nat)
      requires 4 <= nk <= n < rdKey.Length && |key| == 4 * nk && Filled(rdKey[..], key, nk, n)
      requires n % nk != 0 && !(nk > 6 && n % nk == 4)
      modifies rdKey
      ensures Filled(rdKey[..], key, nk, n + 1)
    {
      hide SubWord, RotWord, XorW, Rcon, GetU32;
      Put(key, nk, n, XorW(rdKey[n - nk], rdKey[n - 1]));
    }

    method Expand128(key: seq<Byte>)
      requires rdKey.Length == 60 && |key| == 16 && Filled(rdKey[..], key, 4, 4)
      modifies rdKey
      ensures Filled(rdKey[..], key, 4, 44)
    {
      hide Filled;
      for i := 0 to 10
        invariant Filled(rdKey[..], key, 4, 4 * i + 4)
      {
        PutCore(key, 4, 4 * i + 4, i);
        PutPlain(key, 4, 4 * i + 5);
        PutPlain(key, 4, 4 * i + 6);
        PutPlain(key, 4, 4 * i + 7);
      }
    }

    method Expand192(key: seq<Byte>)
      requires rdKey.Length == 60 && |key| == 24 && Filled(rdKey[..], key, 6, 6)
      modifies rdKey
      ensures Filled(rdKey[..], key, 6, 52)
    {
      hide Filled;
      var i := 0;
      while true
        invariant 0 <= i < 8 && Filled(rdKey[..], key, 6, 6 * i + 6)
        decreases 8 - i
      {
        PutCore(key, 6, 6 * i + 6, i);
        PutPlain(key, 6, 6 * i + 7);
        PutPlain(key, 6, 6 * i + 8);
        PutPlain(key, 6, 6 * i + 9);
        i := i + 1;
        if i == 8 {
          return;
        }
        PutPlain(key, 6, 6 * i + 4);
        PutPlain(key, 6, 6 * i + 5);
      }
    }

    method Expand256(key: seq<Byte>)
      requires rdKey.Length == 60 && |key| == 32 && Filled(rdKey[..], key, 8, 8)
      modifies rdKey
      ensures Filled(rdKey[..], key, 8, 60)
    {
      hide Filled;
      var i := 0;
      while true
        invariant 0 <= i < 7 && Filled(rdKey[..], key, 8, 8 * i + 8)
        decreases 7 - i
      {
        PutCore(key, 8, 8 * i + 8, i);
        PutPlain(key, 8, 8 * i + 9);
        PutPlain(key, 8, 8 * i + 10);
        PutPlain(key, 8, 8 * i + 11);
        i := i + 1;
        if i == 7 {
          return;
        }
        PutSub(key, 8, 8 * i + 4);
        PutPlain(key, 8, 8 * i + 5);
        PutPlain(key, 8, 8 * i + 6);
        PutPlain(key, 8, 8 * i + 7);
      }
    }

    method SetEncryptKey(userKey: seq<Byte>, bits: int) returns (status: int)
      requires rdKey.Length == 60
      requires Supported(bits) ==> |userKey| == bits / 8
      modifies this, rdKey
      ensures status == if Supported(bits) then 0 else -2
      ensures status == -2 ==> rounds == old(rounds) && rdKey[..] == old(rdKey[..])
      ensures status == 0 ==> Valid() && rounds == bits / 32 + 6
      ensures status == 0 ==> Filled(rdKey[..], userKey, bits / 32, 4 * rounds + 4)
    {
      hide Filled;
      if bits != 128 && bits != 192 && bits != 256 {
        return -2;
      }
      FilledNone(rdKey[..], userKey, bits / 32);
      rounds := if bits == 128 then 10 else if bits == 192 then 12 else 14;
      PutUser(userKey, bits / 32, 0, 4);
      if bits == 128 {
        Expand128(userKey);
        return 0;
      }
      PutUser(userKey, bits / 32, 4, 6);
      if bits == 192 {
        Expand192(userKey);
        return 0;
      }
      PutUser(userKey, bits / 32, 6, 8);
      Expand256(userKey);
      return 0;
    }

    // ----- AES_set_decrypt_key -----

    /** The four swaps that exchange round keys `a` and `b`. */
    method SwapRoundKeys(a: nat, b: nat)
      requires a < b && 4 * b + 4 <= rdKey.Length
      modifies rdKey
      ensures RoundKey(rdKey[..], a) == old(RoundKey(rdKey[..], b)) && RoundKey(rdKey[..], b) == old(RoundKey(rdKey[..], a))
      ensures forall r :: 0 <= r && 4 * r + 4 <= rdKey.Length && r != a && r != b ==> RoundKey(rdKey[..], r) == old(RoundKey(rdKey[..], r))
    {
      rdKey[4 * a], rdKey[4 * b] := rdKey[4 * b], rdKey[4 * a];
      rdKey[4 * a + 1], rdKey[4 * b + 1] := rdKey[4 * b + 1], rdKey[4 * a + 1];
      rdKey[4 * a + 2], rdKey[4 * b + 2] := rdKey[4 * b + 2], rdKey[4 * a + 2];
      rdKey[4 * a + 3], rdKey[4 * b + 3] := rdKey[4 * b + 3], rdKey[4 * a + 3];
      assert forall m :: 0 <= m < rdKey.Length && !(4 * a <= m < 4 * a + 4) && !(4 * b <= m < 4 * b + 4) ==> rdKey[m] == old(rdKey[m]);
      assert rdKey[4 * a] == old(rdKey[4 * b]) && rdKey[4 * a + 1] == old(rdKey[4 * b + 1]);
      assert rdKey[4 * a + 2] == old(rdKey[4 * b + 2]) && rdKey[4 * a + 3] == old(rdKey[4 * b + 3]);
      assert rdKey[4 * b] == old(rdKey[4 * a]) && rdKey[4 * b + 1] == old(rdKey[4 * a + 1]);
      assert rdKey[4 * b + 2] == old(rdKey[4 * a + 2]) && rdKey[4 * b + 3] == old(rdKey[4 * a + 3]);
    }

    /** The four assignments that apply the inverse MixColumns transformation to round key `a`. */
    method UnmixRoundKey(a: nat)
      requires 4 * a + 4 <= rdKey.Length
      modifies rdKey
      ensures RoundKey(rdKey[..], a) == InvMixColumns(old(RoundKey(rdKey[..], a)))
      ensures forall r :: 0 <= r && 4 * r + 4 <= rdKey.Length && r != a ==> RoundKey(rdKey[..], r) == old(RoundKey(rdKey[..], r))
    {
      hide TableInvMix, InvMixColumn;
      TableInvMixIsInvMix(rdKey[4 * a]);
      TableInvMixIsInvMix(rdKey[4 * a + 1]);
      TableInvMixIsInvMix(rdKey[4 * a + 2]);
      TableInvMixIsInvMix(rdKey[4 * a + 3]);
      rdKey[4 * a] := TableInvMix(rdKey[4 * a]);
      rdKey[4 * a + 1] := TableInvMix(rdKey[4 * a + 1]);
      rdKey[4 * a + 2] := TableInvMix(rdKey[4 * a + 2]);
      rdKey[4 * a + 3] := TableInvMix(rdKey[4 * a + 3]);
    }

    // ----- both key functions -----

    method SetDecryptKey(userKey: seq<Byte>, bits: int) returns (status: int, ghost ek: seq<Word>)
      requires rdKey.Length == 60
      requires Supported(bits) ==> |userKey| == bits / 8
      modifies this, rdKey
      ensures status == if Supported(bits) then 0 else -2
      ensures status == -2 ==> rounds == old(rounds) && rdKey[..] == old(rdKey[..])
      ensures |ek| == 60
      ensures status == 0 ==> Valid() && rounds == bits / 32 + 6
      ensures status == 0 ==> Filled(ek, userKey, bits / 32, 4 * rounds + 4) && Reversed(ek, rdKey[..], rounds)
    {
      hide RoundKey, InvMixColumns, Turned, Unmixed, Reversed, Filled;
      status := SetEncryptKey(userKey, bits);
      ek := rdKey[..];
      if status < 0 {
        return;
      }
      Reverse(ek);
      UnmixNone(ek, rdKey[..], rounds);
      var i := 1;
      while i < rounds
        invariant Valid() && 1 <= i <= rounds == bits / 32 + 6
        invariant Unmixed(ek, rdKey[..], rounds, i)
      {
        ghost var was := rdKey[..];
        UnmixRoundKey(i);
        UnmixOne(ek, was, rdKey[..], rounds, i);
        i := i + 1;
      }
      UnmixAll(ek, rdKey[..], rounds);
    }

    /** The loop that inverts the order of the round keys. */
    method Reverse(ghost ek: seq<Word>)
      requires Valid() && ek == rdKey[..]
      modifies rdKey
      ensures Turned(ek, rdKey[..], rounds, rounds / 2)
    {
      hide RoundKey, Turned;
      TurnNone(ek, rounds);
      var i, j := 0, 4 * rounds;
      ghost var a := 0;
      while i < j
        invariant i == 4 * a && j == 4 * rounds - 4 * a && 0 <= a <= rounds / 2
        invariant Turned(ek, rdKey[..], rounds, a)
        decreases j - i
      {
        ghost var was := rdKey[..];
        SwapRoundKeys(i / 4, j / 4);
        TurnOne(ek, was, rdKey[..], rounds, a);
        i := i + 4;
        j := j - 4;
        a := a + 1;
      }
    }

    // ----- AES_encrypt and AES_decrypt -----

    method Encrypt(input: Block) returns (out: Block)
      requires Valid()
      ensures out == Cipher(rdKey[..], rounds, input)
    {
      hide RoundKey, Round, InvRound, TableRound, InvTableRound, FinalRound, InvFinalRound, TableFinalRound,
        InvTableFinalRound, AddRoundKey, StateOf, BlockOf;
      ghost var w, st := rdKey[..], StateOf(input);
      var rk := 0;
      var s := AddRoundKey(StateOf(input), RoundKey(rdKey[..], 0));
      var t;
      var r := rounds / 2;
      while true
        invariant 1 <= r <= rounds / 2 && rk == 8 * (rounds / 2 - r)
        invariant s == Rounds(w, st, rk / 4)
        decreases r
      {
        TableRoundIsRound(s, RoundKey(rdKey[..], rk / 4 + 1));
        t := TableRound(s, RoundKey(rdKey[..], rk / 4 + 1));
        rk := rk + 8;
        r := r - 1;
        assert t == Rounds(w, st, rk / 4 - 1);
        if r == 0 {
          break;
        }
        TableRoundIsRound(t, RoundKey(rdKey[..], rk / 4));
        s := TableRound(t, RoundKey(rdKey[..], rk / 4));
      }
      TableFinalRoundIsFinalRound(t, RoundKey(rdKey[..], rk / 4));
      s := TableFinalRound(t, RoundKey(rdKey[..], rk / 4));
      out := BlockOf(s);
    }

    method Decrypt(input: Block) returns (out: Block)
      requires Valid()
      ensures out == InvCipher(rdKey[..], rounds, input)
    {
      hide RoundKey, Round, InvRound, TableRound, InvTableRound, FinalRound, InvFinalRound, TableFinalRound,
        InvTableFinalRound, AddRoundKey, StateOf, BlockOf;
      ghost var w, st := rdKey[..], StateOf(input);
      var rk := 0;
      var s := AddRoundKey(StateOf(input), RoundKey(rdKey[..], 0));
      var t;
      var r := rounds / 2;
      while true
        invariant 1 <= r <= rounds / 2 && rk == 8 * (rounds / 2 - r)
        invariant s == InvRounds(w, st, rk / 4)
        decreases r
      {
        InvTableRoundIsInvRound(s, RoundKey(rdKey[..], rk / 4 + 1));
        t := InvTableRound(s, RoundKey(rdKey[..], rk / 4 + 1));
        rk := rk + 8;
        r := r - 1;
        assert t == InvRounds(w, st, rk / 4 - 1);
        if r == 0 {
          break;
        }
        InvTableRoundIsInvRound(t, RoundKey(rdKey[..], rk / 4));
        s := InvTableRound(t, RoundKey(rdKey[..], rk / 4));
      }
      InvTableFinalRoundIsInvFinalRound(t, RoundKey(rdKey[..], rk / 4));
      s := InvTableFinalRound(t, RoundKey(rdKey[..], rk / 4));
      out := BlockOf(s);
    }
  }

  // ----- both directions together -----

  /** Only the expanded words of a schedule matter. */
  lemma {:induction false} RoundsAgree(w: seq<Word>, v: seq<Word>, s: State, n: nat)
    requires 4 * n + 4 <= |w| && 4 * n + 4 <= |v| && forall j :: 0 <= j < 4 * n + 4 ==> w[j] == v[j]
    ensures Rounds(w, s, n) == Rounds(v, s, n)
  {
    hide Round, AddRoundKey;
    if n > 0 {
      RoundsAgree(w, v, s, n - 1);
    }
  }

  lemma CiphersAgree(w: seq<Word>, v: seq<Word>, key: seq<Byte>, nk: nat, nr: nat, b: Block)
    requires 4 <= nk && |key| == 4 * nk && 1 <= nr && 4 * nr + 4 <= |w| && 4 * nr + 4 <= |v|
    requires Filled(w, key, nk, 4 * nr + 4) && Filled(v, key, nk, 4 * nr + 4)
    ensures Cipher(w, nr, b) == Cipher(v, nr, b)
  {
    hide Rounds, FinalRound, StateOf, BlockOf, Expanded;
    assert forall j :: 0 <= j < 4 * nr + 4 ==> w[j] == v[j];
    RoundsAgree(w, v, StateOf(b), nr - 1);
  }

  /** For every user key of every size: decrypting with one schedule undoes encrypting with the other. */
  method RoundTrip(userKey: seq<Byte>, bits: int, block: Block) returns (cipher: Block, plain: Block)
    requires Supported(bits) && |userKey| == bits / 8
    ensures plain == block
  {
    hide Cipher, InvCipher, Filled, Reversed;
    var encKey := new AesKey();
    var decKey := new AesKey();
    var status := encKey.SetEncryptKey(userKey, bits);
    ghost var ek;
    status, ek := decKey.SetDecryptKey(userKey, bits);
    cipher := encKey.Encrypt(block);
    plain := decKey.Decrypt(cipher);
    CiphersAgree(encKey.rdKey[..], ek, userKey, bits / 32, encKey.rounds, block);
    InvCipherUndoesCipher(ek, decKey.rdKey[..], encKey.rounds, block);
  }
}
