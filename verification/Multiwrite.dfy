/** Merging of write requests (src/block.c:2912-2987, src/cutils.c:191-210) and the callbacks of a batch
    (src/block.c:2882-2910, 3005-3045). */
module Multiwrite {
  const SECTOR := 512

  type Piece = seq<bv8>

  /** The bytes of an I/O vector. */
  function Flat(iov: seq<Piece>): seq<bv8> {
    if iov == [] then [] else iov[0] + Flat(iov[1..])
  }

  lemma {:induction false} FlatJoin(a: seq<Piece>, b: seq<Piece>)
    ensures Flat(a + b) == Flat(a) + Flat(b)
  {
    if a == [] {
      assert a + b == b;
    } else {
      FlatJoin(a[1..], b);
      assert (a + b)[1..] == a[1..] + b;
    }
  }

  function Min(a: nat, b: nat): nat {
    if a < b then a else b
  }

  /** Up to `n` bytes from `off` on, piece by piece. */
  function Cut(iov: seq<Piece>, off: nat, n: nat): seq<Piece> {
    if iov == [] || n == 0 then []
    else if off < |iov[0]| then
      var len := Min(|iov[0]| - off, n);
      [iov[0][off..off + len]] + Cut(iov[1..], 0, n - len)
    else Cut(iov[1..], off - |iov[0]|, n)
  }

  lemma {:induction false} FlatCut(iov: seq<Piece>, off: nat, n: nat)
    requires off <= |Flat(iov)|
    ensures Flat(Cut(iov, off, n)) == Flat(iov)[off..Min(off + n, |Flat(iov)|)]
    ensures |Cut(iov, off, n)| <= |iov|
  {
    hide Flat, Cut;
    CutStep(iov, off, n);
    if iov == [] || n == 0 {
    } else if off < |iov[0]| {
      FlatCut(iov[1..], 0, n - Min(|iov[0]| - off, n));
      CutHere(iov[0], Flat(iov[1..]), off, n);
    } else {
      FlatCut(iov[1..], off - |iov[0]|, n);
      CutLater(iov[0], Flat(iov[1..]), off, n);
    }
  }

  lemma CutStep(iov: seq<Piece>, off: nat, n: nat)
    ensures iov == [] ==> Flat(iov) == []
    ensures iov != [] ==> Flat(iov) == iov[0] + Flat(iov[1..])
    ensures iov == [] || n == 0 ==> Cut(iov, off, n) == [] && Flat(Cut(iov, off, n)) == []
    ensures iov != [] && off >= |iov[0]| ==> Cut(iov, off, n) == Cut(iov[1..], off - |iov[0]|, n)
    ensures iov != [] && n > 0 && off < |iov[0]| ==>
              var len := Min(|iov[0]| - off, n);
              && |Cut(iov, off, n)| == 1 + |Cut(iov[1..], 0, n - len)|
              && Flat(Cut(iov, off, n)) == iov[0][off..off + len] + Flat(Cut(iov[1..], 0, n - len))
  {
    if iov != [] && n > 0 && off < |iov[0]| {
      var len := Min(|iov[0]| - off, n);
      assert Cut(iov, off, n)[1..] == Cut(iov[1..], 0, n - len);
    }
  }

  lemma CutHere<T>(a: seq<T>, b: seq<T>, off: nat, n: nat)
    requires off < |a|
    ensures var len := Min(|a| - off, n);
            (a + b)[off..Min(off + n, |a + b|)] == a[off..off + len] + b[0..Min(n - len, |b|)]
  {
  }

  lemma CutLater<T>(a: seq<T>, b: seq<T>, off: nat, n: nat)
    requires |a| <= off <= |a| + |b|
    ensures (a + b)[off..Min(off + n, |a + b|)] == b[off - |a|..Min(off - |a| + n, |b|)]
  {
    var end := Min(off + n, |a + b|);
    assert (a + b)[off..end] == (a + b)[|a|..][off - |a|..end - |a|];
    assert (a + b)[|a|..] == b;
  }

  /** `qemu_iovec_concat` */
  method Concat(dst: seq<Piece>, src: seq<Piece>, soffset: nat, sbytes: nat) returns (r: seq<Piece>)
    requires soffset <= |Flat(src)|
    ensures r == dst + Cut(src, soffset, sbytes)
  {
    r := dst;
    var i, done, skip: nat := 0, 0, soffset;
    assert src[0..] == src;
    while done < sbytes && i < |src|
      invariant i <= |src| && done <= sbytes
      invariant r + Cut(src[i..], skip, sbytes - done) == dst + Cut(src, soffset, sbytes)
    {
      assert src[i..][1..] == src[i + 1..];
      if skip < |src[i]| {
        var len := Min(|src[i]| - skip, sbytes - done);
        var piece := src[i][skip..skip + len];
        assert r + [piece] + Cut(src[i + 1..], 0, sbytes - done - len) == r + ([piece] + Cut(src[i + 1..], 0, sbytes - done - len));
        r := r + [piece];
        done := done + len;
        skip := 0;
      } else {
        skip := skip - |src[i]|;
      }
      i := i + 1;
    }
  }

  // ----- the meaning of writes -----

  /** A write request; `nb` is its length in sectors. */
  datatype Write = Write(sector: nat, nb: nat, iov: seq<Piece>) {
    ghost predicate Sound() {
      |Flat(iov)| == nb * SECTOR
    }

    function Start(): nat { sector * SECTOR }

    function End(): nat { (sector + nb) * SECTOR }

    predicate Covers(p: nat) {
      Start() <= p < End()
    }
  }

  /** The byte at `p` after the writes, done in order. */
  ghost function After(ws: seq<Write>, p: nat, before: bv8): bv8
    requires AllSound(ws)
  {
    if ws == [] then before
    else After(ws[1..], p, if ws[0].Covers(p) then Flat(ws[0].iov)[p - ws[0].Start()] else before)
  }

  /** Sorted by start sector. */
  ghost predicate Sorted(ws: seq<Write>) {
    forall i, j :: 0 <= i < j < |ws| ==> ws[i].sector <= ws[j].sector
  }

  // ----- merging -----

  predicate Merges(a: Write, b: Write, iovMax: nat) {
    b.sector <= a.sector + a.nb && |a.iov| + |b.iov| + 1 <= iovMax
  }

  /** `a` up to where `b` starts, then `b`. */
  function Joined(a: Write, b: Write): Write
    requires a.sector <= b.sector
  {
    var iov := Cut(a.iov, 0, (b.sector - a.sector) * SECTOR) + Cut(b.iov, 0, b.nb * SECTOR);
    Write(a.sector, b.sector - a.sector + b.nb, iov)
  }

  lemma JoinedSound(a: Write, b: Write)
    requires a.Sound() && b.Sound() && a.sector <= b.sector <= a.sector + a.nb
    ensures Joined(a, b).Sound()
    ensures Flat(Joined(a, b).iov) == Flat(a.iov)[..(b.sector - a.sector) * SECTOR] + Flat(b.iov)
    ensures |Joined(a, b).iov| <= |a.iov| + |b.iov|
  {
    hide Flat, Cut;
    FlatCut(a.iov, 0, (b.sector - a.sector) * SECTOR);
    FlatCut(b.iov, 0, b.nb * SECTOR);
    FlatJoin(Cut(a.iov, 0, (b.sector - a.sector) * SECTOR), Cut(b.iov, 0, b.nb * SECTOR));
  }

  /** The requests that remain, when `cur` is the one being added to. */
  function Merged(cur: Write, rest: seq<Write>, iovMax: nat): seq<Write>
    decreases |rest|
  {
    if rest == [] then [cur]
    else if cur.sector <= rest[0].sector && Merges(cur, rest[0], iovMax) then
      Merged(Joined(cur, rest[0]), rest[1..], iovMax)
    else [cur] + Merged(rest[0], rest[1..], iovMax)
  }

  ghost predicate AllSound(ws: seq<Write>) {
    forall i :: 0 <= i < |ws| ==> ws[i].Sound()
  }

  lemma {:induction false} MergedSound(cur: Write, rest: seq<Write>, iovMax: nat)
    requires cur.Sound() && AllSound(rest)
    ensures AllSound(Merged(cur, rest, iovMax))
    decreases |rest|
  {
    if rest != [] {
      if cur.sector <= rest[0].sector && Merges(cur, rest[0], iovMax) {
        JoinedSound(cur, rest[0]);
        MergedSound(Joined(cur, rest[0]), rest[1..], iovMax);
      } else {
        MergedSound(rest[0], rest[1..], iovMax);
      }
    }
  }

  lemma {:induction false} AfterCovered(ws: seq<Write>, p: nat, x: bv8, y: bv8)
    requires AllSound(ws) && Covered(ws, p)
    ensures After(ws, p, x) == After(ws, p, y)
  {
    if !ws[0].Covers(p) {
      var i :| 0 <= i < |ws| && ws[i].Covers(p);
      assert ws[1..][i - 1].Covers(p);
      AfterCovered(ws[1..], p, x, y);
    }
  }

  lemma {:induction false} AfterUntouched(ws: seq<Write>, p: nat, before: bv8)
    requires AllSound(ws) && !Covered(ws, p)
    ensures After(ws, p, before) == before
  {
    if ws != [] {
      AfterUntouched(ws[1..], p, before);
    }
  }

  ghost predicate Covered(ws: seq<Write>, p: nat) {
    exists i :: 0 <= i < |ws| && ws[i].Covers(p)
  }

  /** Going through the requests as the merge does, with `cur` being added to: wherever one is merged that ends at
      or before `p` while `cur` reaches beyond, a later request writes `p`. */
  ghost predicate NoLoss(cur: Write, rest: seq<Write>, iovMax: nat, p: nat)
    decreases |rest|
  {
    if rest == [] then true
    else if cur.sector <= rest[0].sector && Merges(cur, rest[0], iovMax) then
      (rest[0].End() <= p < cur.End() ==> Covered(rest[1..], p)) && NoLoss(Joined(cur, rest[0]), rest[1..], iovMax, p)
    else NoLoss(rest[0], rest[1..], iovMax, p)
  }

  /** A simpler condition that is enough, whatever is merged: a request that ends before its predecessor does, at
      or before `p`, is followed by one that writes `p`. */
  ghost predicate NoLossAt(ws: seq<Write>, p: nat) {
    forall j :: 0 < j < |ws| && ws[j].End() <= p < ws[j - 1].End() ==> Covered(ws[j + 1..], p)
  }

  lemma NoLossTail(cur: Write, next: Write, rest: seq<Write>, p: nat)
    requires NoLossAt([cur] + rest, p) && rest != [] && next.End() == rest[0].End()
    ensures NoLossAt([next] + rest[1..], p)
  {
    var ws, ns := [cur] + rest, [next] + rest[1..];
    forall j | 0 < j < |ns| && ns[j].End() <= p < ns[j - 1].End() ensures Covered(ns[j + 1..], p) {
      assert ws[j + 1] == ns[j] && ws[j].End() == ns[j - 1].End();
      assert ws[j + 1 + 1..] == ns[j + 1..];
    }
  }

  /** One merge, seen at `p`. */
  lemma JoinAt(a: Write, b: Write, tail: seq<Write>, p: nat, before: bv8)
    requires a.Sound() && b.Sound() && AllSound(tail) && a.sector <= b.sector <= a.sector + a.nb
    requires b.End() <= p < a.End() ==> Covered(tail, p)
    ensures Joined(a, b).Sound()
    ensures After([Joined(a, b)] + tail, p, before) == After([a] + ([b] + tail), p, before)
  {
    hide Joined, Flat;
    JoinedSound(a, b);
    JoinedShape(a, b);
    var c := Joined(a, b);
    var x := if a.Covers(p) then Flat(a.iov)[p - a.Start()] else before;
    var y := if b.Covers(p) then Flat(b.iov)[p - b.Start()] else x;
    var z := if c.Covers(p) then Flat(c.iov)[p - c.Start()] else before;
    FirstWrite(c, tail, p, before);
    FirstWrite(a, [b] + tail, p, before);
    FirstWrite(b, tail, p, x);
    if b.End() <= p < a.End() {
      AfterCovered(tail, p, y, z);
    } else {
      assert y == z;
    }
  }

  lemma FirstWrite(w: Write, tail: seq<Write>, p: nat, before: bv8)
    requires w.Sound() && AllSound(tail)
    ensures AllSound([w] + tail)
    ensures After([w] + tail, p, before) == After(tail, p, if w.Covers(p) then Flat(w.iov)[p - w.Start()] else before)
  {
    assert ([w] + tail)[1..] == tail;
  }

  lemma JoinedShape(a: Write, b: Write)
    requires a.sector <= b.sector
    ensures Joined(a, b).sector == a.sector && Joined(a, b).End() == b.End()
  {
  }

  lemma SortedFirst(cur: Write, rest: seq<Write>)
    requires Sorted([cur] + rest) && rest != []
    ensures cur.sector <= rest[0].sector
  {
    var ws := [cur] + rest;
    assert ws[0].sector <= ws[1].sector;
  }

  lemma SortedTail(cur: Write, next: Write, rest: seq<Write>)
    requires Sorted([cur] + rest) && rest != [] && next.sector <= rest[0].sector
    ensures Sorted([next] + rest[1..])
  {
    var ws := [cur] + rest;
    forall i, j | 0 <= i < j < |rest| ensures rest[i].sector <= rest[j].sector {
      assert ws[i + 1].sector <= ws[j + 1].sector;
    }
  }

  /** Merging preserves meaning: the requests that remain do to byte `p` what the sorted ones do, whatever
      the limit on I/O vectors kept apart. */
  lemma {:induction false} MergePreserves(cur: Write, rest: seq<Write>, iovMax: nat, p: nat, before: bv8)
    requires cur.Sound() && AllSound(rest) && Sorted([cur] + rest) && NoLoss(cur, rest, iovMax, p)
    ensures AllSound(Merged(cur, rest, iovMax)) && AllSound([cur] + rest)
    ensures After(Merged(cur, rest, iovMax), p, before) == After([cur] + rest, p, before)
    decreases |rest|
  {
    hide Joined, Sorted, After, Covered;
    MergedSound(cur, rest, iovMax);
    if rest == [] {
      assert [cur] + rest == [cur];
    } else {
      var b, tail := rest[0], rest[1..];
      assert rest == [b] + tail;
      SortedFirst(cur, rest);
      if Merges(cur, b, iovMax) {
        var c := Joined(cur, b);
        JoinedShape(cur, b);
        SortedTail(cur, c, rest);
        JoinAt(cur, b, tail, p, before);
        MergePreserves(c, tail, iovMax, p, before);
      } else {
        var x := if cur.Covers(p) then Flat(cur.iov)[p - cur.Start()] else before;
        SortedTail(cur, b, rest);
        MergePreserves(b, tail, iovMax, p, x);
        FirstWrite(cur, rest, p, before);
        FirstWrite(cur, Merged(b, tail, iovMax), p, before);
      }
    }
  }

  lemma LossHere(cur: Write, rest: seq<Write>, p: nat)
    requires NoLossAt([cur] + rest, p) && rest != []
    ensures rest[0].End() <= p < cur.End() ==> Covered(rest[1..], p)
  {
    var ws := [cur] + rest;
    assert ws[1 + 1..] == rest[1..];
    assert ws[1].End() == rest[0].End() && ws[1 - 1].End() == cur.End();
    assert ws[1].End() <= p < ws[1 - 1].End() ==> Covered(ws[1 + 1..], p);
  }

  lemma {:induction false} SimplerSuffices(cur: Write, rest: seq<Write>, iovMax: nat, p: nat)
    requires NoLossAt([cur] + rest, p)
    ensures NoLoss(cur, rest, iovMax, p)
    decreases |rest|
  {
    hide Joined, NoLossAt, Covered, Merges;
    if rest != [] {
      if cur.sector <= rest[0].sector && Merges(cur, rest[0], iovMax) {
        JoinedShape(cur, rest[0]);
        LossHere(cur, rest, p);
        NoLossTail(cur, Joined(cur, rest[0]), rest, p);
        SimplerSuffices(Joined(cur, rest[0]), rest[1..], iovMax, p);
      } else {
        NoLossTail(cur, rest[0], rest, p);
        SimplerSuffices(rest[0], rest[1..], iovMax, p);
      }
    }
  }

  /** None nested inside an earlier one: then nothing is lost anywhere. */
  lemma EndsGrowLoseNothing(ws: seq<Write>, p: nat)
    requires forall i, j :: 0 <= i < j < |ws| ==> ws[i].End() <= ws[j].End()
    ensures NoLossAt(ws, p)
  {
    assert forall j :: 0 < j < |ws| ==> ws[j - 1].End() <= ws[j].End();
  }

  // ----- what is merged -----

  function Pieces(ws: seq<Write>): nat {
    if ws == [] then 0 else |ws[0].iov| + Pieces(ws[1..])
  }

  lemma {:induction false} MergedFirst(cur: Write, rest: seq<Write>, iovMax: nat)
    ensures Merged(cur, rest, iovMax) != [] && Merged(cur, rest, iovMax)[0].sector == cur.sector
    decreases |rest|
  {
    hide Merges;
    if rest != [] && cur.sector <= rest[0].sector && Merges(cur, rest[0], iovMax) {
      MergedFirst(Joined(cur, rest[0]), rest[1..], iovMax);
    }
  }

  /** Of what remains, two neighbours are apart: the first ends before the second starts, or else the second
      started with a request whose I/O vector did not fit with the first. */
  lemma {:induction false} KeptApart(cur: Write, rest: seq<Write>, iovMax: nat, i: nat)
    requires Sorted([cur] + rest) && i + 1 < |Merged(cur, rest, iovMax)|
    ensures var a, b := Merged(cur, rest, iovMax)[i], Merged(cur, rest, iovMax)[i + 1];
            || a.sector + a.nb < b.sector
            || exists k :: 0 <= k < |rest| && rest[k].sector == b.sector && |a.iov| + |rest[k].iov| + 1 > iovMax
    decreases |rest|
  {
    hide Joined, Sorted;
    var b, tail := rest[0], rest[1..];
    SortedFirst(cur, rest);
    if cur.sector <= b.sector && Merges(cur, b, iovMax) {
      JoinedShape(cur, b);
      SortedTail(cur, Joined(cur, b), rest);
      KeptApart(Joined(cur, b), tail, iovMax, i);
    } else {
      MergedFirst(b, tail, iovMax);
      SortedTail(cur, b, rest);
      if i > 0 {
        KeptApart(b, tail, iovMax, i - 1);
      }
    }
  }

  /** So where the vectors fit, requests that touch or overlap have become one: between those that remain there
      are gaps. */
  lemma {:induction false} LeavesGaps(cur: Write, rest: seq<Write>, iovMax: nat, i: nat)
    requires cur.Sound() && AllSound(rest) && Sorted([cur] + rest) && |cur.iov| + Pieces(rest) + 1 <= iovMax
    requires i + 1 < |Merged(cur, rest, iovMax)|
    ensures Merged(cur, rest, iovMax)[i].sector + Merged(cur, rest, iovMax)[i].nb < Merged(cur, rest, iovMax)[i + 1].sector
    decreases |rest|
  {
    hide Joined, Sorted;
    var b, tail := rest[0], rest[1..];
    SortedFirst(cur, rest);
    if Merges(cur, b, iovMax) {
      JoinedShape(cur, b);
      JoinedSound(cur, b);
      SortedTail(cur, Joined(cur, b), rest);
      LeavesGaps(Joined(cur, b), tail, iovMax, i);
    } else {
      MergedFirst(b, tail, iovMax);
      SortedTail(cur, b, rest);
      if i > 0 {
        LeavesGaps(b, tail, iovMax, i - 1);
      }
    }
  }

  /** What remains is one of the requests, or has fewer pieces than an I/O vector may have. */
  lemma {:induction false} PiecesFit(cur: Write, rest: seq<Write>, iovMax: nat, i: nat)
    requires cur.Sound() && AllSound(rest) && Sorted([cur] + rest) && i < |Merged(cur, rest, iovMax)|
    ensures var w := Merged(cur, rest, iovMax)[i]; w == cur || w in rest || |w.iov| < iovMax
    decreases |rest|
  {
    hide Joined, Sorted;
    if rest != [] {
      var b, tail := rest[0], rest[1..];
      SortedFirst(cur, rest);
      if Merges(cur, b, iovMax) {
        JoinedShape(cur, b);
        JoinedSound(cur, b);
        SortedTail(cur, Joined(cur, b), rest);
        PiecesFit(Joined(cur, b), tail, iovMax, i);
      } else {
        SortedTail(cur, b, rest);
        if i > 0 {
          PiecesFit(b, tail, iovMax, i - 1);
        }
      }
    }
  }

  // ----- and only then -----

  lemma {:induction false} MergingAddsNothing(cur: Write, rest: seq<Write>, iovMax: nat, p: nat)
    requires cur.Sound() && AllSound(rest) && Sorted([cur] + rest) && !cur.Covers(p) && !Covered(rest, p)
    ensures !Covered(Merged(cur, rest, iovMax), p)
    decreases |rest|
  {
    hide Joined, Sorted;
    if rest != [] {
      var b, tail := rest[0], rest[1..];
      assert !b.Covers(p);
      assert !Covered(tail, p);
      SortedFirst(cur, rest);
      if Merges(cur, b, iovMax) {
        var c := Joined(cur, b);
        JoinedShape(cur, b);
        JoinedSound(cur, b);
        SortedTail(cur, c, rest);
        MergingAddsNothing(c, tail, iovMax, p);
      } else {
        SortedTail(cur, b, rest);
        MergingAddsNothing(b, tail, iovMax, p);
      }
    }
  }

  /** A tail is lost while `cur` is still being added to. */
  ghost predicate LossInGroup(cur: Write, rest: seq<Write>, iovMax: nat, p: nat)
    decreases |rest|
  {
    && rest != [] && cur.sector <= rest[0].sector && Merges(cur, rest[0], iovMax)
    && ((rest[0].End() <= p < cur.End() && !Covered(rest[1..], p)) || LossInGroup(Joined(cur, rest[0]), rest[1..], iovMax, p))
  }

  /** Then the merged requests do not write `p`, which the sorted ones do. */
  lemma {:induction false} GroupLoses(cur: Write, rest: seq<Write>, iovMax: nat, p: nat)
    requires cur.Sound() && AllSound(rest) && Sorted([cur] + rest) && LossInGroup(cur, rest, iovMax, p)
    ensures !Covered(Merged(cur, rest, iovMax), p) && Covered([cur] + rest, p)
    decreases |rest|
  {
    hide Joined, Sorted;
    var b, tail, ws := rest[0], rest[1..], [cur] + rest;
    var c := Joined(cur, b);
    JoinedShape(cur, b);
    JoinedSound(cur, b);
    SortedTail(cur, c, rest);
    if b.End() <= p < cur.End() && !Covered(tail, p) {
      MergingAddsNothing(c, tail, iovMax, p);
      assert ws[0].Covers(p);
    } else {
      GroupLoses(c, tail, iovMax, p);
      var i :| 0 <= i < |[c] + tail| && ([c] + tail)[i].Covers(p);
      if i > 0 {
        assert ws[i + 1] == ([c] + tail)[i];
      } else {
        assert ws[0].Covers(p) || ws[1].Covers(p);
      }
    }
  }

  // ----- requests of the same shape -----

  /** The request with all its bytes `x`. */
  function Colored(w: Write, x: bv8): Write {
    w.(iov := ColoredIov(w.iov, x))
  }

  function ColoredIov(iov: seq<Piece>, x: bv8): seq<Piece> {
    if iov == [] then [] else [seq(|iov[0]|, _ => x)] + ColoredIov(iov[1..], x)
  }

  function ColoredAll(ws: seq<Write>, x: bv8): seq<Write> {
    if ws == [] then [] else [Colored(ws[0], x)] + ColoredAll(ws[1..], x)
  }

  /** Two lists of requests differ in nothing but the bytes. */
  predicate SameShape(a: seq<Write>, b: seq<Write>) {
    ColoredAll(a, 0) == ColoredAll(b, 0)
  }

  lemma {:induction false} ColoredFlat(iov: seq<Piece>, x: bv8)
    ensures |ColoredIov(iov, x)| == |iov| && |Flat(ColoredIov(iov, x))| == |Flat(iov)|
    ensures forall i :: 0 <= i < |Flat(iov)| ==> Flat(ColoredIov(iov, x))[i] == x
  {
    if iov != [] {
      ColoredFlat(iov[1..], x);
    }
  }

  lemma {:induction false} ColoredCut(iov: seq<Piece>, off: nat, n: nat, x: bv8)
    ensures ColoredIov(Cut(iov, off, n), x) == Cut(ColoredIov(iov, x), off, n)
  {
    if iov != [] && n > 0 {
      var first := seq(|iov[0]|, _ => x);
      assert ColoredIov(iov, x)[1..] == ColoredIov(iov[1..], x);
      if off < |iov[0]| {
        var len := Min(|iov[0]| - off, n);
        ColoredCut(iov[1..], 0, n - len, x);
        assert first[off..off + len] == seq(|iov[0][off..off + len]|, _ => x);
        assert Cut(iov, off, n)[1..] == Cut(iov[1..], 0, n - len);
      } else {
        ColoredCut(iov[1..], off - |iov[0]|, n, x);
      }
    }
  }

  lemma {:induction false} ColoredPlus(a: seq<Piece>, b: seq<Piece>, x: bv8)
    ensures ColoredIov(a + b, x) == ColoredIov(a, x) + ColoredIov(b, x)
  {
    if a == [] {
      assert a + b == b;
    } else {
      assert (a + b)[1..] == a[1..] + b;
      ColoredPlus(a[1..], b, x);
    }
  }

  lemma ColoredJoined(a: Write, b: Write, x: bv8)
    requires a.sector <= b.sector
    ensures Joined(Colored(a, x), Colored(b, x)) == Colored(Joined(a, b), x)
  {
    hide Cut, ColoredIov;
    var n, m := (b.sector - a.sector) * SECTOR, b.nb * SECTOR;
    ColoredCut(a.iov, 0, n, x);
    ColoredCut(b.iov, 0, m, x);
    ColoredPlus(Cut(a.iov, 0, n), Cut(b.iov, 0, m), x);
  }

  lemma ColoredSound(w: Write, x: bv8)
    requires w.Sound()
    ensures Colored(w, x).Sound() && |Colored(w, x).iov| == |w.iov|
    ensures forall i :: 0 <= i < |Flat(w.iov)| ==> Flat(Colored(w, x).iov)[i] == x
  {
    ColoredFlat(w.iov, x);
  }

  lemma {:induction false} ColoredAllIs(ws: seq<Write>, x: bv8)
    requires AllSound(ws)
    ensures |ColoredAll(ws, x)| == |ws| && AllSound(ColoredAll(ws, x))
    ensures forall i :: 0 <= i < |ws| ==> ColoredAll(ws, x)[i] == Colored(ws[i], x)
    ensures forall p: nat :: Covered(ColoredAll(ws, x), p) <==> Covered(ws, p)
  {
    hide Colored;
    ColoredEach(ws, x);
    forall i | 0 <= i < |ws| ensures ColoredAll(ws, x)[i].Sound() {
      ColoredSound(ws[i], x);
    }
    forall p: nat ensures Covered(ColoredAll(ws, x), p) <==> Covered(ws, p) {
      ColoredCovers(ws, x, p);
    }
  }

  lemma {:induction false} ColoredEach(ws: seq<Write>, x: bv8)
    ensures |ColoredAll(ws, x)| == |ws|
    ensures forall i :: 0 <= i < |ws| ==> ColoredAll(ws, x)[i] == Colored(ws[i], x)
  {
    if ws != [] {
      ColoredEach(ws[1..], x);
    }
  }

  lemma ColoredCovers(ws: seq<Write>, x: bv8, p: nat)
    ensures Covered(ColoredAll(ws, x), p) <==> Covered(ws, p)
  {
    ColoredEach(ws, x);
    if i :| 0 <= i < |ws| && ws[i].Covers(p) {
      assert ColoredAll(ws, x)[i].Covers(p);
    }
    if i :| 0 <= i < |ColoredAll(ws, x)| && ColoredAll(ws, x)[i].Covers(p) {
      assert ws[i].Covers(p);
    }
  }

  lemma {:induction false} ColoredTwice(iov: seq<Piece>, x: bv8, y: bv8)
    ensures ColoredIov(ColoredIov(iov, x), y) == ColoredIov(iov, y)
  {
    if iov != [] {
      ColoredTwice(iov[1..], x, y);
      assert ColoredIov(iov, x)[1..] == ColoredIov(iov[1..], x);
    }
  }

  lemma {:induction false} AllColoredTwice(ws: seq<Write>, x: bv8, y: bv8)
    ensures ColoredAll(ColoredAll(ws, x), y) == ColoredAll(ws, y)
  {
    if ws != [] {
      ColoredTwice(ws[0].iov, x, y);
      AllColoredTwice(ws[1..], x, y);
      assert ColoredAll(ws, x)[1..] == ColoredAll(ws[1..], x);
    }
  }

  /** What is merged, and what is lost, does not depend on the bytes. */
  lemma {:induction false} LossIsShape(cur: Write, rest: seq<Write>, iovMax: nat, p: nat, x: bv8)
    requires cur.Sound() && AllSound(rest)
    ensures NoLoss(cur, rest, iovMax, p) <==> NoLoss(Colored(cur, x), ColoredAll(rest, x), iovMax, p)
    ensures LossInGroup(cur, rest, iovMax, p) <==> LossInGroup(Colored(cur, x), ColoredAll(rest, x), iovMax, p)
    decreases |rest|
  {
    hide Joined, Covered;
    if rest != [] {
      var b, tail := rest[0], rest[1..];
      assert ColoredAll(rest, x)[1..] == ColoredAll(tail, x);
      ColoredSound(cur, x);
      ColoredSound(b, x);
      ColoredCovers(tail, x, p);
      if cur.sector <= b.sector && Merges(cur, b, iovMax) {
        ColoredJoined(cur, b, x);
        JoinedSound(cur, b);
        LossIsShape(Joined(cur, b), tail, iovMax, p, x);
      } else {
        LossIsShape(b, tail, iovMax, p, x);
      }
    }
  }

  lemma {:induction false} AfterColored(ws: seq<Write>, p: nat, x: bv8, before: bv8)
    requires AllSound(ws)
    ensures AllSound(ColoredAll(ws, x))
    ensures After(ColoredAll(ws, x), p, before) == if Covered(ws, p) then x else before
  {
    ColoredAllIs(ws, x);
    if ws != [] {
      var w := Colored(ws[0], x);
      ColoredSound(ws[0], x);
      AfterColored(ws[1..], p, x, if w.Covers(p) then x else before);
      assert ColoredAll(ws, x) == [w] + ColoredAll(ws[1..], x);
      FirstWrite(w, ColoredAll(ws[1..], x), p, before);
      CoveredStep(ws, p);
    }
  }

  lemma CoveredStep(ws: seq<Write>, p: nat)
    requires ws != []
    ensures Covered(ws, p) <==> ws[0].Covers(p) || Covered(ws[1..], p)
  {
    if i :| 0 <= i < |ws| && ws[i].Covers(p) {
      assert i > 0 ==> ws[1..][i - 1].Covers(p);
    }
    if i :| 0 <= i < |ws[1..]| && ws[1..][i].Covers(p) {
      assert ws[i + 1].Covers(p);
    }
  }

  /** A write of zeroes over 0 changes nothing. */
  lemma ZeroFirst(w: Write, tail: seq<Write>, p: nat)
    requires w.Sound() && AllSound(tail)
    ensures Colored(w, 0).Sound() && AllSound([Colored(w, 0)] + tail)
    ensures After([Colored(w, 0)] + tail, p, 0) == After(tail, p, 0)
  {
    hide Colored, After, Flat;
    ColoredSound(w, 0);
    ColoredKeeps(w, 0);
    FirstWrite(Colored(w, 0), tail, p, 0);
  }

  lemma ColoredKeeps(w: Write, x: bv8)
    ensures Colored(w, x).sector == w.sector && Colored(w, x).nb == w.nb
  {
  }

  /** The bytes that show a loss at `p`: zeroes up to the merged request in which it happens, and ones from there
      on. */
  ghost predicate Shows(cur: Write, rest: seq<Write>, cur': Write, rest': seq<Write>, iovMax: nat, p: nat) {
    && (cur' == Colored(cur, 0) || cur' == Colored(cur, 1)) && ColoredAll(rest', 0) == ColoredAll(rest, 0)
    && cur'.Sound() && AllSound(rest') && AllSound(Merged(cur', rest', iovMax)) && AllSound([cur'] + rest')
    && After(Merged(cur', rest', iovMax), p, 0) == 0 && After([cur'] + rest', p, 0) == 1
  }

  lemma {:induction false} LossShows(cur: Write, rest: seq<Write>, iovMax: nat, p: nat) returns (cur': Write, rest': seq<Write>)
    requires cur.Sound() && AllSound(rest) && Sorted([cur] + rest) && !NoLoss(cur, rest, iovMax, p)
    ensures Shows(cur, rest, cur', rest', iovMax, p)
    ensures !LossInGroup(cur, rest, iovMax, p) ==> cur' == Colored(cur, 0)
    decreases |rest|
  {
    hide Joined, Sorted, Shows, Colored;
    var b, tail := rest[0], rest[1..];
    SortedFirst(cur, rest);
    if LossInGroup(cur, rest, iovMax, p) {
      cur', rest' := Colored(cur, 1), ColoredAll(rest, 1);
      AllOnes(cur, rest, iovMax, p);
    } else if Merges(cur, b, iovMax) {
      var c := Joined(cur, b);
      JoinedShape(cur, b);
      JoinedSound(cur, b);
      SortedTail(cur, c, rest);
      var c', tail' := LossShows(c, tail, iovMax, p);
      cur', rest' := Colored(cur, 0), [Colored(b, 0)] + tail';
      ShowsMerged(cur, rest, tail', iovMax, p);
    } else {
      SortedTail(cur, b, rest);
      var b', tail' := LossShows(b, tail, iovMax, p);
      cur', rest' := Colored(cur, 0), [b'] + tail';
      ShowsApart(cur, rest, b', tail', iovMax, p);
    }
  }

  lemma AllOnes(cur: Write, rest: seq<Write>, iovMax: nat, p: nat)
    requires cur.Sound() && AllSound(rest) && Sorted([cur] + rest) && LossInGroup(cur, rest, iovMax, p)
    ensures Shows(cur, rest, Colored(cur, 1), ColoredAll(rest, 1), iovMax, p)
  {
    hide NoLoss, LossInGroup, Merged, After, Colored;
    var cur', rest' := Colored(cur, 1), ColoredAll(rest, 1);
    var ws := [cur] + rest;
    assert ws[1..] == rest;
    ColoredSound(cur, 1);
    ColoredAllIs(rest, 1);
    ColoredAllIs(ws, 1);
    assert ColoredAll(ws, 1) == [cur'] + rest';
    LossIsShape(cur, rest, iovMax, p, 1);
    SortedColored(ws, 1);
    GroupLoses(cur', rest', iovMax, p);
    GroupLoses(cur, rest, iovMax, p);
    MergedSound(cur', rest', iovMax);
    AfterUntouched(Merged(cur', rest', iovMax), p, 0);
    AfterColored(ws, p, 1, 0);
    AllColoredTwice(rest, 1, 0);
  }

  lemma SortedColored(ws: seq<Write>, x: bv8)
    requires Sorted(ws)
    ensures Sorted(ColoredAll(ws, x))
  {
    ColoredEach(ws, x);
  }

  lemma ShowsMerged(cur: Write, rest: seq<Write>, tail': seq<Write>, iovMax: nat, p: nat)
    requires cur.Sound() && AllSound(rest) && rest != [] && cur.sector <= rest[0].sector && Merges(cur, rest[0], iovMax)
    requires Shows(Joined(cur, rest[0]), rest[1..], Colored(Joined(cur, rest[0]), 0), tail', iovMax, p)
    ensures Shows(cur, rest, Colored(cur, 0), [Colored(rest[0], 0)] + tail', iovMax, p)
  {
    hide Joined, After, Flat, Colored;
    var b, tail := rest[0], rest[1..];
    var z, y, rest' := Colored(cur, 0), Colored(b, 0), [Colored(b, 0)] + tail';
    ColoredSound(cur, 0);
    ColoredSound(b, 0);
    ColoredKeeps(cur, 0);
    ColoredKeeps(b, 0);
    ColoredJoined(cur, b, 0);
    JoinedSound(cur, b);
    assert rest'[1..] == tail';
    assert Merged(z, rest', iovMax) == Merged(Joined(z, y), tail', iovMax);
    ZeroFirst(Joined(cur, b), tail', p);
    ZeroFirst(b, tail', p);
    ZeroFirst(cur, rest', p);
    SameColor(b, 0, tail', tail);
  }

  lemma SameColor(b: Write, x: bv8, tail': seq<Write>, tail: seq<Write>)
    requires ColoredAll(tail', 0) == ColoredAll(tail, 0)
    ensures ColoredAll([Colored(b, x)] + tail', 0) == ColoredAll([b] + tail, 0)
  {
    ColoredTwice(b.iov, x, 0);
    assert ([Colored(b, x)] + tail')[1..] == tail' && ([b] + tail)[1..] == tail;
  }

  lemma ShowsApart(cur: Write, rest: seq<Write>, b': Write, tail': seq<Write>, iovMax: nat, p: nat)
    requires cur.Sound() && AllSound(rest) && rest != [] && cur.sector <= rest[0].sector && !Merges(cur, rest[0], iovMax)
    requires Shows(rest[0], rest[1..], b', tail', iovMax, p)
    ensures Shows(cur, rest, Colored(cur, 0), [b'] + tail', iovMax, p)
  {
    hide Joined, After, Flat, Colored;
    var b, tail := rest[0], rest[1..];
    var z, rest' := Colored(cur, 0), [b'] + tail';
    var x: bv8 := if b' == Colored(b, 0) then 0 else 1;
    ColoredSound(cur, 0);
    ColoredSound(b, x);
    ColoredKeeps(cur, 0);
    ColoredKeeps(b, x);
    assert rest'[1..] == tail';
    assert Merged(z, rest', iovMax) == [z] + Merged(b', tail', iovMax);
    ZeroFirst(cur, Merged(b', tail', iovMax), p);
    ZeroFirst(cur, rest', p);
    SameColor(b, x, tail', tail);
    assert rest == [b] + tail;
  }

  /** The exact condition, with whatever the limit on I/O vectors keeps apart: merging preserves byte `p`, on every
      disk and whatever is written, if and only if nothing is lost there. */
  lemma MergeExact(cur: Write, rest: seq<Write>, iovMax: nat, p: nat)
    requires cur.Sound() && AllSound(rest) && Sorted([cur] + rest)
    ensures NoLoss(cur, rest, iovMax, p) <==>
            forall c: Write, r: seq<Write>, before: bv8 ::
              SameShape([c] + r, [cur] + rest) && c.Sound() && AllSound(r) ==> Preserved(c, r, iovMax, p, before)
  {
    hide NoLoss, SameShape, Preserved, Sorted;
    if NoLoss(cur, rest, iovMax, p) {
      forall c: Write, r: seq<Write>, before: bv8 | SameShape([c] + r, [cur] + rest) && c.Sound() && AllSound(r)
        ensures Preserved(c, r, iovMax, p, before)
      {
        ShapeKeepsLoss(c, r, cur, rest, iovMax, p);
        MergePreserves(c, r, iovMax, p, before);
        IsPreserved(c, r, iovMax, p, before);
      }
    } else {
      var c, r := LossShows(cur, rest, iovMax, p);
      NotPreserved(cur, rest, c, r, iovMax, p);
    }
  }

  /** The merged requests do to `p` what the sorted ones do. */
  ghost predicate Preserved(cur: Write, rest: seq<Write>, iovMax: nat, p: nat, before: bv8)
    requires cur.Sound() && AllSound(rest)
  {
    MergedSound(cur, rest, iovMax);
    After(Merged(cur, rest, iovMax), p, before) == After([cur] + rest, p, before)
  }

  lemma IsPreserved(cur: Write, rest: seq<Write>, iovMax: nat, p: nat, before: bv8)
    requires cur.Sound() && AllSound(rest) && AllSound(Merged(cur, rest, iovMax)) && AllSound([cur] + rest)
    requires After(Merged(cur, rest, iovMax), p, before) == After([cur] + rest, p, before)
    ensures Preserved(cur, rest, iovMax, p, before)
  {
  }

  lemma NotPreserved(cur: Write, rest: seq<Write>, c: Write, r: seq<Write>, iovMax: nat, p: nat)
    requires Shows(cur, rest, c, r, iovMax, p)
    ensures SameShape([c] + r, [cur] + rest) && c.Sound() && AllSound(r) && !Preserved(c, r, iovMax, p, 0)
  {
    hide After, Merged, Colored;
    var x: bv8 := if c == Colored(cur, 0) then 0 else 1;
    SameColor(cur, x, r, rest);
  }

  lemma ShapeKeepsLoss(c: Write, r: seq<Write>, cur: Write, rest: seq<Write>, iovMax: nat, p: nat)
    requires SameShape([c] + r, [cur] + rest) && c.Sound() && AllSound(r) && cur.Sound() && AllSound(rest)
    requires Sorted([cur] + rest) && NoLoss(cur, rest, iovMax, p)
    ensures Sorted([c] + r) && NoLoss(c, r, iovMax, p)
  {
    hide NoLoss, Colored;
    var a, b := [c] + r, [cur] + rest;
    assert a[1..] == r && b[1..] == rest;
    ColoredEach(a, 0);
    ColoredEach(b, 0);
    forall i | 0 <= i < |a| ensures a[i].sector == b[i].sector {
      ColoredKeeps(a[i], 0);
      ColoredKeeps(b[i], 0);
    }
    assert ColoredAll(a, 0)[1..] == ColoredAll(r, 0) && ColoredAll(b, 0)[1..] == ColoredAll(rest, 0);
    LossIsShape(c, r, iovMax, p, 0);
    LossIsShape(cur, rest, iovMax, p, 0);
  }

  // ----- the batch -----

  const ENOMEDIUM := 123

  /** `QEMUIOVector`; only its destruction happens in place. */
  class IoVec {
    const iov: seq<Piece>
    var destroyed: bool

    constructor (iov: seq<Piece>)
      ensures this.iov == iov && !destroyed
    {
      this.iov, destroyed := iov, false;
    }

    method Destroy()
      requires !destroyed
      modifies this
      ensures destroyed
    {
      destroyed := true;
    }
  }

  /** `BlockRequest` */
  datatype Request = Request(sector: nat, nb: nat, qiov: IoVec, opaque_: nat, error: int)

  function View(r: Request): Write {
    Write(r.sector, r.nb, r.qiov.iov)
  }

  function Views(rs: seq<Request>): seq<Write> {
    seq(|rs|, i requires 0 <= i < |rs| => View(rs[i]))
  }

  predicate InOrder(rs: seq<Request>) {
    forall i, j :: 0 <= i < j < |rs| ==> rs[i].sector <= rs[j].sector
  }

  ghost predicate AllRequestsSound(rs: seq<Request>) {
    forall i :: 0 <= i < |rs| ==> View(rs[i]).Sound()
  }

  /** One merge: a new I/O vector with the first request up to the second, and the second. */
  method Join(a: Request, b: Request) returns (r: Request)
    requires View(a).Sound() && View(b).Sound() && a.sector <= b.sector <= a.sector + a.nb
    ensures View(r) == Joined(View(a), View(b)) && View(r).Sound() && r.sector == a.sector
    ensures fresh(r.qiov) && !r.qiov.destroyed && r.opaque_ == a.opaque_ && r.error == a.error
  {
    hide Flat, Cut;
    JoinedSound(View(a), View(b));
    var size := (b.sector - a.sector) * SECTOR;
    var iov := Concat([], a.qiov.iov, 0, size);
    iov := Concat(iov, b.qiov.iov, 0, |Flat(b.qiov.iov)|);
    var qiov := new IoVec(iov);
    assert iov == Joined(View(a), View(b)).iov;
    r := a.(nb := |Flat(iov)| / SECTOR, qiov := qiov);
  }

  /** What remains to be done, when `cur` is the request being added to and `rest` comes next. */
  ghost function Ahead(cur: Request, rest: seq<Request>, iovMax: nat): seq<Write> {
    Merged(View(cur), Views(rest), iovMax)
  }

  lemma AheadStep(cur: Request, was: seq<Request>, i: nat, iovMax: nat)
    requires i < |was| && cur.sector <= was[i].sector
    ensures Merges(View(cur), View(was[i]), iovMax) ==>
              Ahead(cur, was[i..], iovMax) == Merged(Joined(View(cur), View(was[i])), Views(was[i + 1..]), iovMax)
    ensures !Merges(View(cur), View(was[i]), iovMax) ==>
              Ahead(cur, was[i..], iovMax) == [View(cur)] + Ahead(was[i], was[i + 1..], iovMax)
  {
    assert Views(was[i..])[0] == View(was[i]);
    assert Views(was[i..])[1..] == Views(was[i + 1..]);
  }

  method Mergeable(a: Request, b: Request, iovMax: nat) returns (merge: bool)
    ensures merge == Merges(View(a), View(b), iovMax)
    ensures merge ==> b.sector <= a.sector + a.nb
  {
    merge := false;
    if b.sector <= a.sector + a.nb {
      merge := true;
    }
    if |a.qiov.iov| + |b.qiov.iov| + 1 > iovMax {
      merge := false;
    }
  }

  /** After `i` requests, with the last one kept at `outidx`. */
  ghost predicate Merging(rs: seq<Request>, was: seq<Request>, outidx: nat, i: nat, iovMax: nat, goal: seq<Write>) {
    && |rs| == |was| && outidx < i <= |was|
    && (forall k :: i <= k < |was| ==> rs[k] == was[k])
    && (forall k :: 0 <= k < |was| ==> rs[k].opaque_ == was[k].opaque_ && rs[k].error == was[k].error)
    && View(rs[outidx]).Sound() && rs[outidx].sector <= was[i - 1].sector
    && Views(rs[..outidx]) + Ahead(rs[outidx], was[i..], iovMax) == goal
  }

  lemma MergingJoins(rs: seq<Request>, was: seq<Request>, outidx: nat, i: nat, iovMax: nat, goal: seq<Write>, r: Request)
    requires Merging(rs, was, outidx, i, iovMax, goal) && i < |was| && InOrder(was)
    requires Merges(View(rs[outidx]), View(was[i]), iovMax)
    requires View(r) == Joined(View(rs[outidx]), View(was[i])) && View(r).Sound() && r.sector == rs[outidx].sector
    requires r.opaque_ == rs[outidx].opaque_ && r.error == rs[outidx].error
    ensures Merging(rs[outidx := r], was, outidx, i + 1, iovMax, goal)
  {
    hide Joined, Merged, Merges;
    AheadStep(rs[outidx], was, i, iovMax);
    assert rs[outidx := r][..outidx] == rs[..outidx];
  }

  lemma MergingMoves(rs: seq<Request>, was: seq<Request>, outidx: nat, i: nat, iovMax: nat, goal: seq<Write>, r: Request)
    requires Merging(rs, was, outidx, i, iovMax, goal) && i < |was| && InOrder(was) && AllRequestsSound(was)
    requires !Merges(View(rs[outidx]), View(was[i]), iovMax)
    requires View(r) == View(was[i])
    requires r.opaque_ == rs[outidx + 1].opaque_ && r.error == rs[outidx + 1].error
    ensures Merging(rs[outidx + 1 := r], was, outidx + 1, i + 1, iovMax, goal)
  {
    hide Joined, Merged, Merges;
    AheadStep(rs[outidx], was, i, iovMax);
    assert Views(rs[outidx + 1 := r][..outidx + 1]) == Views(rs[..outidx]) + [View(rs[outidx])];
  }

  /** The I/O vectors in `made` stand in `free`, below `i`, each in one place. */
  ghost predicate Keeping(free: seq<IoVec?>, i: nat, made: set<IoVec>) {
    && (forall q :: q in made ==> q in free)
    && (forall k :: 0 <= k < |free| && free[k] != null ==> k < i && free[k] in made)
    && (forall j, k :: 0 <= j < k < |free| && free[j] != null ==> free[j] != free[k])
  }

  lemma KeepsOne(free: seq<IoVec?>, i: nat, made: set<IoVec>, q: IoVec)
    requires Keeping(free, i, made) && i < |free| && q !in made
    ensures Keeping(free[i := q], i + 1, made + {q})
  {
    assert free[i := q][i] == q;
    forall p | p in made ensures p in free[i := q] {
      var k :| 0 <= k < |free| && free[k] == p;
      assert free[i := q][k] == p;
    }
  }

  lemma KeepsNone(free: seq<IoVec?>, i: nat, made: set<IoVec>)
    requires Keeping(free, i, made) && i < |free|
    ensures Keeping(free, i + 1, made)
  {
  }

  /** The loop of `multiwrite_merge`, over requests that are sorted. */
  method Merge(reqs: array<Request>, num: nat, free: array<IoVec?>, iovMax: nat)
    returns (out: nat, ghost made: set<IoVec>)
    requires 1 <= num == reqs.Length == free.Length
    requires AllRequestsSound(reqs[..]) && InOrder(reqs[..])
    requires forall i :: 0 <= i < num ==> free[i] == null
    modifies reqs, free
    ensures 1 <= out <= num
    ensures Views(reqs[..out]) == Merged(View(old(reqs[0])), Views(old(reqs[1..])), iovMax)
    ensures forall k :: 0 <= k < num ==> reqs[k].opaque_ == old(reqs[k]).opaque_ && reqs[k].error == old(reqs[k]).error
    ensures Keeping(free[..], num, made) && |made| == num - out
    ensures fresh(made) && forall q :: q in made ==> !q.destroyed
  {
    hide Merges, Joined, Merged, Merging, Keeping, Flat, InOrder, AllRequestsSound, Views;
    ghost var was := reqs[..];
    ghost var goal := Ahead(was[0], was[1..], iovMax);
    var outidx, i := 0, 1;
    made := {};
    MergingStarts(was, iovMax);
    KeepingStarts(free[..]);
    while i < num
      invariant outidx < i <= num
      invariant Merging(reqs[..], was, outidx, i, iovMax, goal)
      invariant Keeping(free[..], i, made) && |made| == i - 1 - outidx
      invariant fresh(made) && forall q :: q in made ==> !q.destroyed
    {
      MergingOrder(reqs[..], was, outidx, i, iovMax, goal);
      var merge := Mergeable(reqs[outidx], reqs[i], iovMax);
      if merge {
        var r := Join(reqs[outidx], reqs[i]);
        MergingJoins(reqs[..], was, outidx, i, iovMax, goal, r);
        KeepsOne(free[..], i, made, r.qiov);
        ghost var rs, fs := reqs[..], free[..];
        reqs[outidx] := r;
        free[i] := r.qiov;
        made := made + {r.qiov};
        assert reqs[..] == rs[outidx := r] && free[..] == fs[i := r.qiov];
      } else {
        KeepsNone(free[..], i, made);
        var r := reqs[outidx + 1].(sector := reqs[i].sector, nb := reqs[i].nb, qiov := reqs[i].qiov);
        MergingMoves(reqs[..], was, outidx, i, iovMax, goal, r);
        ghost var rs := reqs[..];
        outidx := outidx + 1;
        reqs[outidx] := r;
        assert reqs[..] == rs[outidx := r];
      }
      i := i + 1;
    }
    MergingEnds(reqs[..], was, outidx, iovMax, goal);
    assert reqs[..][..outidx + 1] == reqs[..outidx + 1];
    return outidx + 1, made;
  }

  lemma MergingStarts(was: seq<Request>, iovMax: nat)
    requires was != [] && AllRequestsSound(was)
    ensures Merging(was, was, 0, 1, iovMax, Ahead(was[0], was[1..], iovMax))
  {
  }

  lemma MergingOrder(rs: seq<Request>, was: seq<Request>, outidx: nat, i: nat, iovMax: nat, goal: seq<Write>)
    requires Merging(rs, was, outidx, i, iovMax, goal) && i < |was| && InOrder(was) && AllRequestsSound(was)
    ensures rs[outidx].sector <= rs[i].sector && rs[i] == was[i] && View(rs[outidx]).Sound() && View(rs[i]).Sound()
  {
  }

  lemma MergingEnds(rs: seq<Request>, was: seq<Request>, outidx: nat, iovMax: nat, goal: seq<Write>)
    requires Merging(rs, was, outidx, |was|, iovMax, goal)
    ensures Views(rs[..outidx + 1]) == goal
    ensures forall k :: 0 <= k < |was| ==> rs[k].opaque_ == was[k].opaque_ && rs[k].error == was[k].error
  {
    assert Views(was[|was|..]) == [];
    assert Views(rs[..outidx + 1]) == Views(rs[..outidx]) + [View(rs[outidx])];
  }

  lemma KeepingStarts(free: seq<IoVec?>)
    requires free != [] && forall i :: 0 <= i < |free| ==> free[i] == null
    ensures Keeping(free, 1, {})
  {
  }

  // ----- completion -----

  /** One call for each caller, in order. */
  function OneEach(opaques: seq<nat>, error: int): seq<(nat, int)> {
    seq(|opaques|, i requires 0 <= i < |opaques| => (opaques[i], error))
  }

  /** `MultiwriteCB`.  A call of a caller's callback is an entry of `calls`: whose, and with what error. */
  class MultiwriteCB {
    var error: int
    var numRequests: nat
    const opaques: seq<nat>
    const free: array<IoVec?>
    var calls: seq<(nat, int)>
    var freed: bool
    ghost var made: set<IoVec>

    constructor (opaques: seq<nat>)
      ensures this.opaques == opaques && error == 0 && numRequests == 0 && calls == [] && !freed && made == {}
      ensures fresh(free) && free.Length == |opaques| && forall i :: 0 <= i < free.Length ==> free[i] == null
    {
      this.opaques, error, numRequests, calls, freed, made := opaques, 0, 0, [], false, {};
      free := new IoVec?[|opaques|](i => null);
    }

    /** Between submission and the last completion. */
    ghost predicate Pending()
      reads this, free, made
    {
      && !freed && calls == [] && free.Length == |opaques|
      && Keeping(free[..], free.Length, made) && forall q :: q in made ==> !q.destroyed
    }

    /** `multiwrite_user_cb` */
    method UserCallbacks()
      requires Pending()
      modifies this`calls, made
      ensures calls == OneEach(opaques, error)
      ensures forall q :: q in made ==> q.destroyed
    {
      var i := 0;
      while i < |opaques|
        invariant i <= |opaques|
        invariant calls == OneEach(opaques[..i], error)
        invariant forall k :: 0 <= k < |opaques| && free[k] != null ==> (free[k].destroyed <==> k < i)
      {
        calls := calls + [(opaques[i], error)];
        assert opaques[..i + 1] == opaques[..i] + [opaques[i]];
        if free[i] != null {
          free[i].Destroy();
        }
        i := i + 1;
      }
      assert opaques[..i] == opaques;
      forall q | q in made ensures q.destroyed {
        var k :| 0 <= k < free.Length && free[..][k] == q;
      }
    }

    /** `multiwrite_cb`: one of the writes has completed. */
    method Complete(ret: int)
      requires Pending() && numRequests > 0
      modifies this`error, this`numRequests, this`calls, this`freed, made
      ensures numRequests == old(numRequests) - 1
      ensures error == if ret < 0 && old(error) == 0 then ret else old(error)
      ensures numRequests > 0 ==> Pending()
      ensures numRequests == 0 ==> freed && calls == OneEach(opaques, error)
      ensures numRequests == 0 ==> forall q :: q in made ==> q.destroyed
    {
      if ret < 0 && error == 0 {
        error := ret;
      }
      numRequests := numRequests - 1;
      if numRequests == 0 {
        UserCallbacks();
        freed := true;
      }
    }

    /** All writes complete, in whatever order: `results` are their results as they come in. */
    method CompleteAll(results: seq<int>)
      requires Pending() && error == 0 && numRequests == |results| > 0
      modifies this`error, this`numRequests, this`calls, this`freed, made
      ensures freed && calls == OneEach(opaques, FirstError(results))
      ensures forall q :: q in made ==> q.destroyed
    {
      var k := 0;
      while k < |results| - 1
        invariant k < |results| && numRequests == |results| - k
        invariant Pending() && error == FirstError(results[..k])
      {
        FirstErrorNext(results, k);
        Complete(results[k]);
        k := k + 1;
      }
      FirstErrorNext(results, k);
      assert results[..k + 1] == results;
      Complete(results[k]);
    }
  }

  function FirstError(results: seq<int>): int {
    if results == [] then 0 else if results[0] < 0 then results[0] else FirstError(results[1..])
  }

  lemma {:induction false} FirstErrorNext(results: seq<int>, k: nat)
    requires k < |results|
    ensures FirstError(results[..k + 1]) ==
            if results[k] < 0 && FirstError(results[..k]) == 0 then results[k] else FirstError(results[..k])
  {
    if k > 0 {
      FirstErrorNext(results[1..], k - 1);
      assert results[..k + 1][1..] == results[1..][..k] && results[..k][1..] == results[1..][..k - 1];
    }
  }

  /** The error reported is the first negative result to come in, and 0 when there is none. */
  lemma {:induction false} FirstErrorIsFirst(results: seq<int>, k: nat)
    requires k < |results| && results[k] < 0 && forall i :: 0 <= i < k ==> results[i] >= 0
    ensures FirstError(results) == results[k]
  {
    if k > 0 {
      FirstErrorIsFirst(results[1..], k - 1);
    }
  }

  // ----- the whole submission -----

  lemma {:induction false} Sortable(rs: seq<Request>) returns (t: seq<Request>)
    ensures multiset(t) == multiset(rs) && InOrder(t)
  {
    if rs == [] {
      t := [];
    } else {
      var s := Sortable(rs[1..]);
      t := Insert(rs[0], s);
      assert rs == [rs[0]] + rs[1..];
    }
  }

  lemma {:induction false} Insert(r: Request, s: seq<Request>) returns (t: seq<Request>)
    requires InOrder(s)
    ensures multiset(t) == multiset(s) + multiset{r} && InOrder(t)
    ensures t != [] && (t[0] == r || (s != [] && t[0] == s[0]))
    decreases |s|
  {
    hide InOrder;
    if s == [] || r.sector <= s[0].sector {
      t := [r] + s;
      OrderFront(r, s);
    } else {
      OrderTail(s);
      var rest := Insert(r, s[1..]);
      t := [s[0]] + rest;
      assert s == [s[0]] + s[1..];
      OrderFront(s[0], rest);
    }
  }

  lemma OrderFront(x: Request, rest: seq<Request>)
    requires InOrder(rest) && (rest == [] || x.sector <= rest[0].sector)
    ensures InOrder([x] + rest)
  {
  }

  lemma OrderTail(s: seq<Request>)
    requires InOrder(s) && s != []
    ensures InOrder(s[1..]) && (|s| > 1 ==> s[0].sector <= s[1].sector)
  {
  }

  /** `qsort` by start sector: any sorted order, since it is not stable. */
  method Sort(reqs: array<Request>)
    modifies reqs
    ensures multiset(reqs[..]) == multiset(old(reqs[..])) && InOrder(reqs[..])
  {
    ghost var some := Sortable(reqs[..]);
    var t: seq<Request> :| multiset(t) == multiset(reqs[..]) && InOrder(t);
    SameLength(t, reqs[..]);
    forall i | 0 <= i < reqs.Length {
      reqs[i] := t[i];
    }
    assert reqs[..] == t;
  }

  lemma SameLength(a: seq<Request>, b: seq<Request>)
    requires multiset(a) == multiset(b)
    ensures |a| == |b|
  {
    assert |a| == |multiset(a)| && |b| == |multiset(b)|;
  }

  /** `bdrv_aio_multiwrite`; `submitted` are the writes that it starts. */
  method AioMultiwrite(hasMedium: bool, reqs: array<Request>, iovMax: nat)
    returns (ret: int, submitted: seq<Write>, mcb: MultiwriteCB?, ghost sorted: seq<Request>)
    requires AllRequestsSound(reqs[..])
    modifies reqs
    ensures mcb == null ==> submitted == []
    ensures !hasMedium ==> ret == -1 && mcb == null &&
                           forall i :: 0 <= i < reqs.Length ==> reqs[i] == old(reqs[i]).(error := -ENOMEDIUM)
    ensures hasMedium ==> ret == 0 && (mcb == null <==> reqs.Length == 0)
    ensures mcb != null ==>
              && fresh(mcb) && mcb.Pending() && mcb.error == 0 && mcb.numRequests == |submitted|
              && mcb.opaques == seq(reqs.Length, i requires 0 <= i < reqs.Length => old(reqs[..])[i].opaque_)
              && fresh(mcb.made) && |mcb.made| == reqs.Length - |submitted|
              && InOrder(sorted) && multiset(sorted) == multiset(old(reqs[..])) && 1 <= |submitted| <= |sorted| == reqs.Length
              && submitted == Merged(View(sorted[0]), Views(sorted[1..]), iovMax)
  {
    submitted, mcb, sorted := [], null, [];
    if !hasMedium {
      forall i | 0 <= i < reqs.Length {
        reqs[i] := reqs[i].(error := -ENOMEDIUM);
      }
      return -1, submitted, mcb, sorted;
    }
    ret := 0;
    if reqs.Length == 0 {
      return;
    }
    hide Merged, Views;
    ghost var was := reqs[..];
    mcb := new MultiwriteCB(seq(reqs.Length, i requires 0 <= i < reqs.Length reads reqs => reqs[i].opaque_));
    Sort(reqs);
    sorted := reqs[..];
    SameLength(sorted, was);
    SoundAnyOrder(was, sorted);
    var out;
    ghost var made;
    out, made := Merge(reqs, reqs.Length, mcb.free, iovMax);
    mcb.made := made;
    mcb.numRequests := out;
    submitted := Submit(reqs, out);
  }

  /** The loop that starts the writes. */
  method Submit(reqs: array<Request>, num: nat) returns (submitted: seq<Write>)
    requires num <= reqs.Length
    ensures submitted == Views(reqs[..num])
  {
    submitted := [];
    for i := 0 to num
      invariant submitted == Views(reqs[..i])
    {
      submitted := submitted + [View(reqs[i])];
    }
  }

  lemma SoundAnyOrder(a: seq<Request>, b: seq<Request>)
    requires AllRequestsSound(a) && multiset(a) == multiset(b)
    ensures AllRequestsSound(b)
  {
    forall i | 0 <= i < |b| ensures View(b[i]).Sound() {
      assert b[i] in multiset(b);
      assert b[i] in a;
    }
  }
}
