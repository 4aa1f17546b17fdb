/** Cipher block chaining over byte buffers (src/aes.c:1265-1314; section 6.2 of NIST SP 800-38A). */
module AesCbc {
  import opened AesField
  import opened AesRounds
  import opened AesCipher
  import opened AesKeys

  /** The mode works with any block function. */
  type Fn = Block -> Block

  /** The bytes of `s` added to those of the vector; a short last block is filled up from the vector. */
  function Chain(s: seq<Byte>, iv: Block): Block
    requires |s| <= 16
  {
    seq(16, n requires 0 <= n < 16 => if n < |s| then s[n] ^ iv[n] else iv[n])
  }

  function RoundUp(n: nat): nat {
    (n + 15) / 16 * 16
  }

  lemma RoundUpPartial(n: nat, p: nat)
    requires p % 16 == 0 && p < n <= p + 16
    ensures RoundUp(n) == p + 16
  {
  }

  lemma RoundUpAbove(n: nat)
    ensures n <= RoundUp(n)
  {
  }

  lemma RoundUpWhole(n: nat)
    requires n % 16 == 0
    ensures RoundUp(n) == n
  {
  }

  // ----- what the two directions compute -----

  /** The first block of ciphertext. */
  function EncBlock(e: Fn, s: seq<Byte>, iv: Block): Block {
    e(Chain(if |s| < 16 then s else s[..16], iv))
  }

  function CbcEnc(e: Fn, s: seq<Byte>, iv: Block): seq<Byte> {
    if s == [] then []
    else if |s| < 16 then EncBlock(e, s, iv)
    else EncBlock(e, s, iv) + CbcEnc(e, s[16..], EncBlock(e, s, iv))
  }

  /** The vector that encryption leaves. */
  function EncIv(e: Fn, s: seq<Byte>, iv: Block): Block {
    if s == [] then iv
    else if |s| < 16 then EncBlock(e, s, iv)
    else EncIv(e, s[16..], EncBlock(e, s, iv))
  }

  /** The first `len` bytes of plaintext. */
  function CbcDec(d: Fn, c: seq<Byte>, len: nat, iv: Block): (s: seq<Byte>)
    requires RoundUp(len) <= |c|
    ensures |s| == len
    decreases len
  {
    if len == 0 then []
    else if len < 16 then Chain(d(c[..16]), iv)[..len]
    else Chain(d(c[..16]), iv) + CbcDec(d, c[16..], len - 16, c[..16])
  }

  /** The vector that decryption leaves: after a short last block, the decrypted block itself. */
  function DecIv(d: Fn, c: seq<Byte>, len: nat, iv: Block): Block
    requires RoundUp(len) <= |c|
    decreases len
  {
    if len == 0 then iv
    else if len < 16 then d(c[..16])
    else DecIv(d, c[16..], len - 16, c[..16])
  }

  // ----- the laws -----

  /** Ciphertext comes in whole blocks. */
  lemma {:induction false} CbcEncLength(e: Fn, s: seq<Byte>, iv: Block)
    ensures |CbcEnc(e, s, iv)| == RoundUp(|s|)
  {
    hide EncBlock;
    if |s| >= 16 {
      CbcEncLength(e, s[16..], EncBlock(e, s, iv));
    }
  }

  lemma ChainTwice(s: seq<Byte>, iv: Block)
    requires |s| <= 16
    ensures Chain(Chain(s, iv), iv)[..|s|] == s
  {
    forall n | 0 <= n < |s| ensures Chain(Chain(s, iv), iv)[n] == s[n] {
      assert (s[n] ^ iv[n]) ^ iv[n] == s[n];
    }
  }

  /** Decrypting the encrypted bytes with the same vector gives them back, whatever their number. */
  lemma {:induction false} CbcRoundTrip(e: Fn, d: Fn, s: seq<Byte>, iv: Block)
    requires forall b: Block :: d(e(b)) == b
    ensures |CbcEnc(e, s, iv)| == RoundUp(|s|)
    ensures CbcDec(d, CbcEnc(e, s, iv), |s|, iv) == s
  {
    hide Chain;
    CbcEncLength(e, s, iv);
    if s == [] {
    } else if |s| < 16 {
      ChainTwice(s, iv);
      assert CbcEnc(e, s, iv)[..16] == CbcEnc(e, s, iv);
    } else {
      var c, all := EncBlock(e, s, iv), CbcEnc(e, s, iv);
      ChainTwice(s[..16], iv);
      CbcRoundTrip(e, d, s[16..], c);
      assert all[..16] == c && all[16..] == CbcEnc(e, s[16..], c);
      assert Chain(Chain(s[..16], iv), iv) == s[..16];
      assert s == s[..16] + s[16..];
    }
  }

  /** Encrypting in two calls, split at a block boundary, equals one call. */
  lemma {:induction false} CbcEncSplit(e: Fn, a: seq<Byte>, b: seq<Byte>, iv: Block)
    requires |a| % 16 == 0
    ensures CbcEnc(e, a + b, iv) == CbcEnc(e, a, iv) + CbcEnc(e, b, EncIv(e, a, iv))
    ensures EncIv(e, a + b, iv) == EncIv(e, b, EncIv(e, a, iv))
  {
    hide Chain;
    if a == [] {
      assert a + b == b;
    } else {
      assert (a + b)[..16] == a[..16] && (a + b)[16..] == a[16..] + b;
      CbcEncSplit(e, a[16..], b, EncBlock(e, a, iv));
    }
  }

  /** And so does decrypting. */
  lemma {:induction false} CbcDecSplit(d: Fn, c: seq<Byte>, m: nat, n: nat, iv: Block)
    requires m % 16 == 0 && RoundUp(m + n) <= |c|
    ensures m <= |c| && RoundUp(n) <= |c[m..]|
    ensures CbcDec(d, c, m + n, iv) == CbcDec(d, c, m, iv) + CbcDec(d, c[m..], n, DecIv(d, c, m, iv))
    ensures DecIv(d, c, m + n, iv) == DecIv(d, c[m..], n, DecIv(d, c, m, iv))
  {
    hide Chain;
    if m > 0 {
      CbcDecSplit(d, c[16..], m - 16, n, c[..16]);
      assert c[16..][m - 16..] == c[m..];
    } else {
      assert c[0..] == c;
    }
  }

  /** For whole blocks the vector ends as the last block of ciphertext, in both directions. */
  lemma {:induction false} LastVector(e: Fn, d: Fn, s: seq<Byte>, iv: Block)
    requires |s| % 16 == 0 && s != []
    ensures |CbcEnc(e, s, iv)| == RoundUp(|s|) >= 16
    ensures EncIv(e, s, iv) == CbcEnc(e, s, iv)[RoundUp(|s|) - 16..]
    ensures DecIv(d, CbcEnc(e, s, iv), |s|, iv) == CbcEnc(e, s, iv)[RoundUp(|s|) - 16..]
  {
    hide EncBlock;
    CbcEncLength(e, s, iv);
    var b, c := EncBlock(e, s, iv), CbcEnc(e, s, iv);
    assert c[..16] == b && c[16..] == CbcEnc(e, s[16..], b);
    if |s| == 16 {
      assert s[16..] == [];
    } else {
      LastVector(e, d, s[16..], b);
      assert c[16..][|c| - 32..] == c[|c| - 16..];
    }
  }

  // ----- what the blocks are, byte by byte: section 6.2 of SP 800-38A -----

  /** The block of ciphertext before block `k`; the vector for the first one. */
  function Previous(c: seq<Byte>, k: nat, iv: Block): Block
    requires 16 * k <= |c|
  {
    if k == 0 then iv else c[16 * k - 16..16 * k]
  }

  /** Block `k` of the ciphertext encrypts the plaintext added, bit by bit, to the block before; past the end of
      the plaintext it is the block before alone. */
  lemma {:induction false} CbcEncIs(e: Fn, s: seq<Byte>, iv: Block, k: nat)
    requires 16 * k < |s|
    ensures 16 * k + 16 <= |CbcEnc(e, s, iv)|
    ensures var last := Previous(CbcEnc(e, s, iv), k, iv);
            CbcEnc(e, s, iv)[16 * k..16 * k + 16] ==
            e(seq(16, n requires 0 <= n < 16 => if 16 * k + n < |s| then s[16 * k + n] ^ last[n] else last[n]))
    decreases k
  {
    var b, c := EncBlock(e, s, iv), CbcEnc(e, s, iv);
    CbcEncLength(e, s, iv);
    if k == 0 {
      var x: Block := seq(16, n requires 0 <= n < 16 => if 16 * k + n < |s| then s[16 * k + n] ^ iv[n] else iv[n]);
      assert x == Chain(if |s| < 16 then s else s[..16], iv);
      assert c[16 * k..16 * k + 16] == b == e(x);
    } else {
      var t, rest := s[16..], CbcEnc(e, s[16..], b);
      CbcEncIs(e, t, b, k - 1);
      EncNext(e, s, iv, k);
      var last, last' := Previous(c, k, iv), Previous(rest, k - 1, b);
      var x: Block := seq(16, n requires 0 <= n < 16 => if 16 * k + n < |s| then s[16 * k + n] ^ last[n] else last[n]);
      var y: Block := seq(16, n requires 0 <= n < 16 => if 16 * (k - 1) + n < |t| then t[16 * (k - 1) + n] ^ last'[n] else last'[n]);
      assert x == y;
    }
  }

  lemma EncNext(e: Fn, s: seq<Byte>, iv: Block, k: nat)
    requires 0 < k && 16 * k < |s|
    ensures var b, c := EncBlock(e, s, iv), CbcEnc(e, s, iv);
            var rest := CbcEnc(e, s[16..], b);
            && 16 * k + 16 <= |c| && 16 * k <= |rest|
            && c[16 * k..16 * k + 16] == rest[16 * (k - 1)..16 * (k - 1) + 16]
            && Previous(c, k, iv) == Previous(rest, k - 1, b)
  {
    hide EncBlock;
    var b := EncBlock(e, s, iv);
    CbcEncLength(e, s, iv);
    CbcEncLength(e, s[16..], b);
    PreviousNext(b + CbcEnc(e, s[16..], b), k, iv);
  }

  lemma PreviousNext(c: seq<Byte>, k: nat, iv: Block)
    requires 0 < k && 16 * k <= |c|
    ensures Previous(c, k, iv) == Previous(c[16..], k - 1, c[..16])
    ensures 16 * k + 16 <= |c| ==> c[16 * k..16 * k + 16] == c[16..][16 * (k - 1)..16 * (k - 1) + 16]
  {
    if k > 1 {
      SliceLater(c, 16, 16 * k - 32, 16 * k - 16);
    }
    if 16 * k + 16 <= |c| {
      SliceLater(c, 16, 16 * k - 16, 16 * k);
    }
  }

  /** Byte `n` of block `k` of the plaintext is that of the decrypted block, added to the block of ciphertext
      before. */
  lemma {:induction false} CbcDecIs(d: Fn, c: seq<Byte>, len: nat, iv: Block, k: nat, n: nat)
    requires RoundUp(len) <= |c| && n < 16 && 16 * k + n < len
    ensures 16 * k + 16 <= |c|
    ensures CbcDec(d, c, len, iv)[16 * k + n] == d(c[16 * k..16 * k + 16])[n] ^ Previous(c, k, iv)[n]
    decreases k
  {
    hide CbcDec, RoundUp;
    if k == 0 {
      DecFirst(d, c, len, iv, n);
    } else {
      DecNext(d, c, len, iv, 16 * k + n);
      CbcDecIs(d, c[16..], len - 16, c[..16], k - 1, n);
      PreviousNext(c, k, iv);
    }
  }

  lemma DecFirst(d: Fn, c: seq<Byte>, len: nat, iv: Block, n: nat)
    requires RoundUp(len) <= |c| && n < 16 && n < len
    ensures 16 <= |c| && CbcDec(d, c, len, iv)[n] == d(c[0..16])[n] ^ iv[n]
  {
    assert c[0..16] == c[..16];
  }

  lemma DecNext(d: Fn, c: seq<Byte>, len: nat, iv: Block, i: nat)
    requires RoundUp(len) <= |c| && 16 <= i < len
    ensures 16 <= |c| && RoundUp(len - 16) <= |c[16..]|
    ensures CbcDec(d, c, len, iv)[i] == CbcDec(d, c[16..], len - 16, c[..16])[i - 16]
  {
    hide Chain;
  }

  /** The last block of ciphertext for `len` bytes; the vector itself when there is none. */
  function LastBlock(c: seq<Byte>, len: nat, iv: Block): Block
    requires RoundUp(len) <= |c|
  {
    if len == 0 then iv else c[RoundUp(len) - 16..RoundUp(len)]
  }

  /** Encryption leaves the last block of ciphertext, whatever the length. */
  lemma {:induction false} EncIvIs(e: Fn, s: seq<Byte>, iv: Block)
    ensures RoundUp(|s|) <= |CbcEnc(e, s, iv)|
    ensures EncIv(e, s, iv) == LastBlock(CbcEnc(e, s, iv), |s|, iv)
    decreases |s|
  {
    hide EncBlock, LastBlock, RoundUp;
    CbcEncLength(e, s, iv);
    var b, c := EncBlock(e, s, iv), CbcEnc(e, s, iv);
    LastBlockFirst(c, |s|, iv);
    if |s| >= 16 {
      EncIvIs(e, s[16..], b);
      assert c[..16] == b && c[16..] == CbcEnc(e, s[16..], b);
      LastBlockNext(c, |s|, iv);
    } else if s != [] {
      assert c[..16] == c;
    }
  }

  /** After a short last block decryption leaves what the block function makes of it. */
  lemma {:induction false} DecIvIs(d: Fn, c: seq<Byte>, len: nat, iv: Block)
    requires RoundUp(len) <= |c|
    ensures DecIv(d, c, len, iv) == if len % 16 == 0 then LastBlock(c, len, iv) else d(LastBlock(c, len, iv))
    decreases len
  {
    hide LastBlock, RoundUp;
    LastBlockFirst(c, len, iv);
    if len >= 16 {
      DecIvIs(d, c[16..], len - 16, c[..16]);
      LastBlockNext(c, len, iv);
    }
  }

  lemma LastBlockFirst(c: seq<Byte>, len: nat, iv: Block)
    requires RoundUp(len) <= |c|
    ensures len == 0 ==> LastBlock(c, len, iv) == iv
    ensures 0 < len < 16 ==> LastBlock(c, len, iv) == c[..16]
    ensures len >= 16 ==> 16 <= |c| && RoundUp(len - 16) <= |c[16..]|
  {
  }

  lemma LastBlockNext(c: seq<Byte>, len: nat, iv: Block)
    requires RoundUp(len) <= |c| && len >= 16
    ensures LastBlock(c, len, iv) == LastBlock(c[16..], len - 16, c[..16])
  {
    var n := RoundUp(len);
    assert RoundUp(len - 16) == n - 16;
    if len == 16 {
      assert n == 16;
    } else {
      SliceLater(c, 16, n - 32, n - 16);
    }
  }

  lemma SliceLater(c: seq<Byte>, k: nat, i: nat, j: nat)
    requires i <= j && k + j <= |c|
    ensures c[k..][i..j] == c[k + i..k + j]
  {
  }

  /** Whatever the block function, decryption leaves the last block of ciphertext in the vector if and only if
      the length is in whole blocks. */
  lemma LastVectorExact(c: seq<Byte>, len: nat, iv: Block)
    requires RoundUp(len) <= |c|
    ensures (forall d: Fn :: DecIv(d, c, len, iv) == LastBlock(c, len, iv)) <==> len % 16 == 0
  {
    hide DecIv, LastBlock;
    forall d: Fn ensures DecIv(d, c, len, iv) == if len % 16 == 0 then LastBlock(c, len, iv) else d(LastBlock(c, len, iv)) {
      DecIvIs(d, c, len, iv);
    }
    var last := LastBlock(c, len, iv);
    var other: Block := if last[0] == 0 then last[0 := 1] else last[0 := 0];
    var d: Fn := (b: Block) => other;
    assert other[0] != last[0] && d(last) == other;
    assert DecIv(d, c, len, iv) == if len % 16 == 0 then last else d(last);
  }

  // ----- AES_cbc_encrypt -----

  /** `e` encrypts with the schedule `w`. */
  ghost predicate Encrypts(e: Fn, w: seq<Word>, nr: nat) {
    1 <= nr && 4 * nr + 4 <= |w| && forall b: Block {:trigger Cipher(w, nr, b)} :: e(b) == Cipher(w, nr, b)
  }

  /** `d` decrypts with the schedule `w`. */
  ghost predicate Decrypts(d: Fn, w: seq<Word>, nr: nat) {
    1 <= nr && 4 * nr + 4 <= |w| && forall b: Block {:trigger InvCipher(w, nr, b)} :: d(b) == InvCipher(w, nr, b)
  }

  /** So the laws hold for the two directions of AES under one key. */
  lemma AesIsInverse(e: Fn, d: Fn, ek: seq<Word>, dk: seq<Word>, nr: nat)
    requires Encrypts(e, ek, nr) && Decrypts(d, dk, nr) && Reversed(ek, dk, nr)
    ensures forall b: Block :: d(e(b)) == b
  {
    hide Cipher, InvCipher, Reversed;
    forall b: Block ensures d(e(b)) == b {
      InvCipherUndoesCipher(ek, dk, nr, b);
    }
  }

  /** `memcpy(out + at, b, |b|)` */
  method Store(out: array<Byte>, at: nat, b: seq<Byte>)
    requires at + |b| <= out.Length
    modifies out
    ensures out[..] == old(out[..])[..at] + b + old(out[..])[at + |b|..]
  {
    forall k | 0 <= k < |b| {
      out[at + k] := b[k];
    }
  }

  /** The loops that add the bytes of a block and the vector. */
  method AddVector(s: seq<Byte>, ivec: array<Byte>) returns (tmp: Block)
    requires |s| <= 16 && ivec.Length == 16
    ensures tmp == Chain(s, ivec[..])
  {
    var t: seq<Byte> := [];
    for n := 0 to |s|
      invariant |t| == n && t == Chain(s, ivec[..])[..n]
    {
      t := t + [s[n] ^ ivec[n]];
    }
    for n := |s| to 16
      invariant |t| == n && t == Chain(s, ivec[..])[..n]
    {
      t := t + [ivec[n]];
    }
    tmp := t;
  }

  /** The vector is a buffer of its own, and so is the key, which holds words. */
  ghost predicate Separate(input: array<Byte>, out: array<Byte>, key: AesKey, ivec: array<Byte>) {
    ivec != input && ivec != out && (key.rdKey as object) != out && (key.rdKey as object) != ivec
  }

  /** From byte `p` on the buffer still holds the source. */
  ghost predicate Rest(buffer: seq<Byte>, src: seq<Byte>, p: nat) {
    |src| <= |buffer| && forall k :: p <= k < |src| ==> buffer[k] == src[k]
  }

  lemma AllRest(buffer: seq<Byte>, length: nat)
    requires length <= |buffer|
    ensures Rest(buffer, buffer[..length], 0) && length <= RoundUp(length)
  {
  }

  /** The first `p` bytes have been encrypted, and the rest of the output is as it was. */
  ghost predicate EncDone(e: Fn, src: seq<Byte>, iv: Block, was: seq<Byte>, out: seq<Byte>, vec: seq<Byte>, p: nat)
    requires p <= |src|
  {
    && RoundUp(p) <= |out| == |was|
    && out == CbcEnc(e, src[..p], iv) + was[RoundUp(p)..]
    && vec == EncIv(e, src[..p], iv)
  }

  lemma EncDoneNone(e: Fn, src: seq<Byte>, iv: Block, was: seq<Byte>)
    ensures EncDone(e, src, iv, was, was, iv, 0)
  {
  }

  lemma EncDoneMore(e: Fn, src: seq<Byte>, iv: Block, was: seq<Byte>, out: seq<Byte>, vec: Block, p: nat, n: nat, c: Block)
    requires p % 16 == 0 && 0 < n <= 16 && p + n <= |src| && p + 16 <= |was|
    requires EncDone(e, src, iv, was, out, vec, p) && c == EncBlock(e, src[p..p + n], vec)
    ensures EncDone(e, src, iv, was, out[..p] + c + out[p + 16..], c, p + n)
  {
    hide EncBlock, CbcEnc, EncIv, RoundUp;
    CbcEncSplit(e, src[..p], src[p..p + n], iv);
    assert src[..p] + src[p..p + n] == src[..p + n];
    OneBlock(e, src[p..p + n], vec);
    CbcEncLength(e, src[..p], iv);
    RoundUpPartial(p + n, p);
    RoundUpWhole(p);
    Spliced(CbcEnc(e, src[..p], iv), was, out, c, p);
  }

  lemma OneBlock(e: Fn, s: seq<Byte>, iv: Block)
    requires 0 < |s| <= 16
    ensures CbcEnc(e, s, iv) == EncBlock(e, s, iv) == EncIv(e, s, iv)
  {
    hide EncBlock;
    if |s| == 16 {
      assert s[16..] == [];
    }
  }

  lemma Spliced(front: seq<Byte>, was: seq<Byte>, out: seq<Byte>, c: seq<Byte>, p: nat)
    requires |front| == p && p + |c| <= |was| && out == front + was[p..]
    ensures out[..p] + c + out[p + |c|..] == front + c + was[p + |c|..]
  {
    assert out[..p] == front && out[p + |c|..] == was[p + |c|..];
  }

  /** Up to 16 bytes at `p` are chained, encrypted and copied to the output and the vector. */
  method EncStep(input: array<Byte>, out: array<Byte>, p: nat, n: nat, key: AesKey, ivec: array<Byte>, ghost e: Fn,
                 ghost src: seq<Byte>, ghost iv: Block, ghost was: seq<Byte>)
    requires key.Valid() && Encrypts(e, key.rdKey[..], key.rounds) && Separate(input, out, key, ivec)
    requires p % 16 == 0 && 0 < n <= 16 && p + n <= |src| <= input.Length && p + 16 <= out.Length == |was| && ivec.Length == 16
    requires n == 16 || p + n == |src|
    requires Rest(input[..], src, p) && EncDone(e, src, iv, was, out[..], ivec[..], p)
    modifies out, ivec
    ensures Rest(input[..], src, p + n) && EncDone(e, src, iv, was, out[..], ivec[..], p + n)
    ensures key.rdKey[..] == old(key.rdKey[..])
  {
    hide Cipher, Chain, EncDone;
    ghost var o, v := out[..], ivec[..];
    var s := input[p..p + n];
    assert s == src[p..p + n];
    var tmp := AddVector(s, ivec);
    var b := key.Encrypt(tmp);
    assert n == 16 ==> s[..16] == s;
    Store(out, p, b);
    Store(ivec, 0, b);
    assert out[..] == o[..p] + b + o[p + 16..] && ivec[..] == b;
    EncDoneMore(e, src, iv, was, o, v, p, n, b);
  }

  /** The `enc` branch.  The output may be the input buffer itself. */
  method Encrypt(input: array<Byte>, out: array<Byte>, length: nat, key: AesKey, ivec: array<Byte>, ghost e: Fn)
    requires key.Valid() && Encrypts(e, key.rdKey[..], key.rounds) && Separate(input, out, key, ivec)
    requires length <= input.Length && RoundUp(length) <= out.Length && ivec.Length == 16
    modifies out, ivec
    ensures EncDone(e, old(input[..length]), old(ivec[..]), old(out[..]), out[..], ivec[..], length)
  {
    hide *;
    ghost var w, src, iv, was := key.rdKey[..], input[..length], ivec[..], out[..];
    AllRest(input[..], length);
    EncDoneNone(e, src, iv, was);
    var p := 0;
    while length - p >= 16
      invariant 0 <= p <= length && p % 16 == 0 && key.rdKey[..] == w
      invariant Rest(input[..], src, p) && EncDone(e, src, iv, was, out[..], ivec[..], p)
    {
      EncStep(input, out, p, 16, key, ivec, e, src, iv, was);
      p := p + 16;
    }
    if length - p != 0 {
      RoundUpPartial(length, p);
      EncStep(input, out, p, length - p, key, ivec, e, src, iv, was);
    }
  }

  /** The first `p` bytes have been decrypted, and the rest of the output is as it was. */
  ghost predicate DecDone(d: Fn, src: seq<Byte>, iv: Block, was: seq<Byte>, out: seq<Byte>, vec: seq<Byte>, p: nat)
    requires RoundUp(p) <= |src|
  {
    && p <= |out| == |was|
    && out == CbcDec(d, src, p, iv) + was[p..]
    && vec == DecIv(d, src, p, iv)
  }

  lemma DecDoneNone(d: Fn, src: seq<Byte>, iv: Block, was: seq<Byte>)
    ensures DecDone(d, src, iv, was, was, iv, 0)
  {
  }

  lemma DecDoneMore(d: Fn, src: seq<Byte>, iv: Block, was: seq<Byte>, out: seq<Byte>, vec: Block, p: nat, n: nat, b: Block)
    requires p % 16 == 0 && 0 < n <= 16 && p + 16 <= |src| && p + n <= |was|
    requires DecDone(d, src, iv, was, out, vec, p) && b == d(src[p..p + 16])
    ensures DecDone(d, src, iv, was, out[..p] + Chain(b, vec)[..n] + out[p + n..], if n < 16 then b else src[p..p + 16], p + n)
  {
    hide Chain;
    CbcDecSplit(d, src, p, n, iv);
    assert src[p..][..16] == src[p..p + 16];
    assert out[..p] == CbcDec(d, src, p, iv) && out[p + n..] == was[p + n..];
  }

  /** Up to 16 bytes at `p` are decrypted, unchained and copied to the output. */
  method DecStep(input: array<Byte>, out: array<Byte>, p: nat, n: nat, key: AesKey, ivec: array<Byte>, ghost d: Fn,
                 ghost src: seq<Byte>, ghost iv: Block, ghost was: seq<Byte>)
    requires key.Valid() && Decrypts(d, key.rdKey[..], key.rounds) && Separate(input, out, key, ivec)
    requires p % 16 == 0 && 0 < n <= 16 && p + 16 <= |src| == input.Length && p + n <= out.Length == |was| && ivec.Length == 16
    requires Rest(input[..], src, p) && DecDone(d, src, iv, was, out[..], ivec[..], p)
    modifies out, ivec
    ensures Rest(input[..], src, p + n) && DecDone(d, src, iv, was, out[..], ivec[..], p + n)
    ensures key.rdKey[..] == old(key.rdKey[..])
  {
    hide InvCipher, Chain, DecDone;
    ghost var o, v := out[..], ivec[..];
    var tmp := input[p..p + 16];
    assert tmp == src[p..p + 16];
    var b := key.Decrypt(tmp);
    var x := AddVector(b, ivec);
    Store(out, p, x[..n]);
    Store(ivec, 0, if n < 16 then b else tmp);
    assert out[..] == o[..p] + x[..n] + o[p + n..] && ivec[..] == if n < 16 then b else tmp;
    DecDoneMore(d, src, iv, was, o, v, p, n, b);
  }

  /** The other branch.  The output may be the input buffer itself. */
  method Decrypt(input: array<Byte>, out: array<Byte>, length: nat, key: AesKey, ivec: array<Byte>, ghost d: Fn)
    requires key.Valid() && Decrypts(d, key.rdKey[..], key.rounds) && Separate(input, out, key, ivec)
    requires RoundUp(length) <= input.Length && length <= out.Length && ivec.Length == 16
    modifies out, ivec
    ensures DecDone(d, old(input[..]), old(ivec[..]), old(out[..]), out[..], ivec[..], length)
  {
    hide *;
    ghost var w, src, iv, was := key.rdKey[..], input[..], ivec[..], out[..];
    AllRest(src, |src|);
    assert src[..|src|] == src;
    RoundUpAbove(length);
    RoundUpWhole(0);
    DecDoneNone(d, src, iv, was);
    var p := 0;
    while length - p >= 16
      invariant 0 <= p <= length && p % 16 == 0 && RoundUp(p) == p && key.rdKey[..] == w
      invariant Rest(input[..], src, p) && DecDone(d, src, iv, was, out[..], ivec[..], p)
    {
      RoundUpWhole(p + 16);
      DecStep(input, out, p, 16, key, ivec, d, src, iv, was);
      p := p + 16;
    }
    if length - p != 0 {
      RoundUpPartial(length, p);
      DecStep(input, out, p, length - p, key, ivec, d, src, iv, was);
    }
  }

  /** `Encrypts` and `Decrypts` do not say which function: this is it. */
  lemma FunctionsExist(w: seq<Word>, nr: nat) returns (e: Fn, d: Fn)
    requires 1 <= nr && 4 * nr + 4 <= |w|
    ensures Encrypts(e, w, nr) && Decrypts(d, w, nr)
  {
    hide Cipher, InvCipher;
    e := (b: Block) => Cipher(w, nr, b);
    d := (b: Block) => InvCipher(w, nr, b);
  }

  lemma EncryptsToo(e: Fn, w: seq<Word>, v: seq<Word>, key: seq<Byte>, nk: nat, nr: nat)
    requires 4 <= nk && |key| == 4 * nk && Encrypts(e, w, nr) && 4 * nr + 4 <= |v|
    requires Filled(w, key, nk, 4 * nr + 4) && Filled(v, key, nk, 4 * nr + 4)
    ensures Encrypts(e, v, nr)
  {
    hide Cipher, Filled;
    forall b: Block ensures e(b) == Cipher(v, nr, b) {
      CiphersAgree(w, v, key, nk, nr, b);
    }
  }

  lemma {:induction false} CbcDecPrefix(d: Fn, c: seq<Byte>, x: seq<Byte>, len: nat, iv: Block)
    requires RoundUp(len) <= |c|
    ensures CbcDec(d, c + x, len, iv) == CbcDec(d, c, len, iv)
    decreases len
  {
    hide Chain;
    if len > 0 {
      assert (c + x)[..16] == c[..16] && (c + x)[16..] == c[16..] + x;
      if len >= 16 {
        CbcDecPrefix(d, c[16..], x, len - 16, c[..16]);
      }
    }
  }

  lemma ThereAndBack(e: Fn, d: Fn, src: seq<Byte>, iv: Block, was: seq<Byte>, mid: seq<Byte>, v: seq<Byte>, out: seq<Byte>, u: seq<Byte>)
    requires forall b: Block :: d(e(b)) == b
    requires EncDone(e, src, iv, was, mid, v, |src|) && RoundUp(|src|) <= |mid| && DecDone(d, mid, iv, mid, out, u, |src|)
    ensures out[..|src|] == src
  {
    hide Chain, EncBlock;
    assert src[..|src|] == src;
    CbcRoundTrip(e, d, src, iv);
    CbcDecPrefix(d, CbcEnc(e, src, iv), was[RoundUp(|src|)..], |src|, iv);
  }

  /** Buffers of any length, keys of any size: what one branch encrypts in place, the other restores. */
  method RoundTrip(buffer: array<Byte>, length: nat, userKey: seq<Byte>, bits: int, iv: Block)
    requires Supported(bits) && |userKey| == bits / 8 && RoundUp(length) <= buffer.Length
    modifies buffer
    ensures length <= buffer.Length && buffer[..length] == old(buffer[..length])
  {
    hide Cipher, InvCipher, Chain, Filled, Reversed, Encrypts, Decrypts, EncBlock, EncDone, DecDone;
    AllRest(buffer[..], length);
    ghost var src, was := buffer[..length], buffer[..];
    var ivec := new Byte[16](i requires 0 <= i < 16 => iv[i]);
    assert ivec[..] == iv;
    var encKey := new AesKey();
    var status := encKey.SetEncryptKey(userKey, bits);
    ghost var e, d0 := FunctionsExist(encKey.rdKey[..], encKey.rounds);
    Encrypt(buffer, buffer, length, encKey, ivec, e);
    ghost var mid, v := buffer[..], ivec[..];
    var decKey := new AesKey();
    ghost var ek;
    status, ek := decKey.SetDecryptKey(userKey, bits);
    ghost var e0, d := FunctionsExist(decKey.rdKey[..], decKey.rounds);
    EncryptsToo(e, encKey.rdKey[..], ek, userKey, bits / 32, encKey.rounds);
    AesIsInverse(e, d, ek, decKey.rdKey[..], encKey.rounds);
    var ivec' := new Byte[16](i requires 0 <= i < 16 => iv[i]);
    assert ivec'[..] == iv;
    Decrypt(buffer, buffer, length, decKey, ivec', d);
    ThereAndBack(e, d, src, iv, was, mid, v, buffer[..], ivec'[..]);
  }
}
