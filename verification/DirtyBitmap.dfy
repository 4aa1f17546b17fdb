/** Dirty tracking of a block device: a bitmap with one bit for each chunk of sectors, and its cached
    population count (src/block.c:1531-1558, 1652-1678, 3782-3825). */
module DirtyBitmap {
  import opened Words
  import opened Bitops

  const CHUNK := 2048  // BDRV_SECTORS_PER_DIRTY_CHUNK

  /** C division: towards zero. */
  function CDiv(n: int, d: nat): int
    requires d > 0
  {
    if n >= 0 then n / d else -((-n) / d)
  }

  /** The chunks from the first to the last that `set_dirty_bitmap` goes through. */
  predicate Spans(sector: int, nb: int, c: int) {
    CDiv(sector, CHUNK) <= c <= CDiv(sector + nb - 1, CHUNK)
  }

  function Touched(sector: int, nb: int): set<nat> {
    set c: nat | c <= Abs(sector) + Abs(nb) && Spans(sector, nb, c)
  }

  function Abs(n: int): nat { if n < 0 then -n else n }

  /** They are the chunks that hold a sector of the request. */
  lemma TouchedExactly(sector: nat, nb: nat, c: nat)
    requires nb > 0
    ensures c in Touched(sector, nb) <==> exists x: nat :: sector <= x < sector + nb && x / CHUNK == c
  {
    assert c in Touched(sector, nb) <==> Spans(sector, nb, c);
    if c in Touched(sector, nb) {
      var x := if c == sector / CHUNK then sector else c * CHUNK;
      assert sector <= x < sector + nb && x / CHUNK == c;
    }
  }

  /** A request for no sectors marks a chunk all the same, except at a chunk boundary other than 0. */
  lemma TouchedByNothing(sector: nat)
    ensures Touched(sector, 0) == if sector == 0 || sector % CHUNK != 0 then {sector / CHUNK} else {}
  {
    assert Spans(sector, 0, sector / CHUNK) <==> sector == 0 || sector % CHUNK != 0;
    if sector > 0 {
      assert (sector - 1) / CHUNK == if sector % CHUNK != 0 then sector / CHUNK else sector / CHUNK - 1;
    }
  }

  /** Products of the check are taken modulo 2^64; an offset is then read as a signed number. */
  const WRAP := 0x1_0000_0000_0000_0000
  const SECTOR_SIZE := 512
  const MAX_SECTORS := 0x40_0000_0000_0000       // 2^54: a length in bytes is below 2^63
  const SECTOR_WRAP := 0x80_0000_0000_0000       // 2^55: sectors this far apart have the same offset

  function Wrapped(n: int): nat { n % WRAP }

  function Signed(n: nat): int { if n < WRAP / 2 then n else n - WRAP }

  /** `bdrv_check_request`, for a medium of `total` sectors that does not grow */
  predicate Checked(total: nat, sector: int, nb: int) {
    var offset, size, len := Signed(Wrapped(sector * SECTOR_SIZE)), Wrapped(nb * SECTOR_SIZE), total * SECTOR_SIZE;
    offset >= 0 && !(offset > len || Wrapped(len - offset) < size)
  }

  predicate Int64(n: int) { -(WRAP / 2) <= n < WRAP / 2 }

  predicate Int32(n: int) { -0x8000_0000 <= n < 0x8000_0000 }

  /** What the check comes to. */
  lemma CheckedMeans(total: nat, sector: int, nb: int)
    requires total < MAX_SECTORS && Int64(sector) && Int32(nb)
    ensures Checked(total, sector, nb) <==> 0 <= nb && sector % SECTOR_WRAP + nb <= total
  {
    var q, r := sector / SECTOR_WRAP, sector % SECTOR_WRAP;
    assert sector * SECTOR_SIZE == q * WRAP + r * SECTOR_SIZE;
    assert Wrapped(sector * SECTOR_SIZE) == r * SECTOR_SIZE;
  }

  /** The length of the bitmap for a device of `total` sectors. */
  function BitmapSize(total: nat): nat {
    (total + CHUNK * BITS_PER_LONG - 1) / (CHUNK * BITS_PER_LONG)
  }

  ghost predicate AllInBounds(total: nat, sector: int, nb: int) {
    forall c: int :: Spans(sector, nb, c) ==> 0 <= c < BITS_PER_LONG * BitmapSize(total)
  }

  /** The request lies in a device that is not empty, or it asks for no sectors, at a place where this marks
      nothing. */
  predicate Inside(total: nat, sector: int, nb: int) {
    || (0 < total && 0 <= sector && 0 <= nb && sector + nb <= total)
    || (nb == 0 && sector > 0 && sector % CHUNK == 0)
    || (nb == 0 && sector < 0 && (sector - 1) % CHUNK == 0)
  }

  /** A request that passes the check has all its bits in bounds if and only if it lies inside the device: the
      check alone does not say so. */
  lemma InBounds(total: nat, sector: int, nb: int)
    requires total < MAX_SECTORS && Int64(sector) && Int32(nb) && Checked(total, sector, nb)
    ensures AllInBounds(total, sector, nb) <==> Inside(total, sector, nb)
  {
    hide Checked;
    CheckedMeans(total, sector, nb);
    if Inside(total, sector, nb) {
      InsideInBounds(total, sector, nb);
    } else {
      OutsideOutOfBounds(total, sector, nb);
    }
  }

  lemma InsideInBounds(total: nat, sector: int, nb: int)
    requires Inside(total, sector, nb)
    ensures AllInBounds(total, sector, nb)
  {
    forall c: int | Spans(sector, nb, c) ensures 0 <= c < BITS_PER_LONG * BitmapSize(total) {
    }
  }

  lemma OutsideOutOfBounds(total: nat, sector: int, nb: int)
    requires total < MAX_SECTORS && 0 <= nb && sector % SECTOR_WRAP + nb <= total && !Inside(total, sector, nb)
    ensures !AllInBounds(total, sector, nb)
  {
    if sector < 0 {
      assert sector <= -SECTOR_WRAP + total;
      BelowZero(total, sector, nb);
    } else if sector == 0 {
      assert Spans(sector, nb, 0);
    } else {
      assert sector >= SECTOR_WRAP;
      FarAway(total, sector, nb);
    }
  }

  lemma BelowZero(total: nat, sector: int, nb: int)
    requires sector <= -CHUNK && 0 <= nb && !(nb == 0 && (sector - 1) % CHUNK == 0)
    ensures !AllInBounds(total, sector, nb)
  {
    var c := CDiv(sector, CHUNK);
    assert c < 0 && Spans(sector, nb, c);
  }

  lemma FarAway(total: nat, sector: int, nb: int)
    requires total < MAX_SECTORS && sector >= SECTOR_WRAP && 0 <= nb && !(nb == 0 && sector % CHUNK == 0)
    ensures !AllInBounds(total, sector, nb)
  {
    var c := CDiv(sector, CHUNK);
    assert Spans(sector, nb, c);
    assert c >= SECTOR_WRAP / CHUNK;
  }

  /** For one sector, a whole number of 2^55 beyond one that is there, the check passes on every device, and the
      bit is out of bounds. */
  lemma FarSectorPasses(total: nat, sector: nat, k: nat)
    requires total < MAX_SECTORS && sector < total && 0 < k < 256
    ensures Checked(total, sector + k * SECTOR_WRAP, 1) && !AllInBounds(total, sector + k * SECTOR_WRAP, 1)
  {
    var far := sector + k * SECTOR_WRAP;
    assert far % SECTOR_WRAP == sector;
    CheckedMeans(total, far, 1);
    InBounds(total, far, 1);
  }

  // ----- the bitmap as a set of chunks -----

  ghost function SetOf(bits: seq<Word>): set<nat> {
    set c: nat | c < 64 * |bits| && BitAt(bits, c)
  }

  /** One bit of one word changes. */
  lemma Changed(bits: seq<Word>, c: nat, value: bool)
    requires c < 64 * |bits|
    ensures SetOf(bits[c / 64 := bits[c / 64][c % 64 := value]]) == if value then SetOf(bits) + {c} else SetOf(bits) - {c}
    ensures c in SetOf(bits) <==> bits[c / 64][c % 64]
  {
    var bits' := bits[c / 64 := bits[c / 64][c % 64 := value]];
    assert BitAt(bits, c) == bits[c / 64][c % 64];
    forall d: nat | d < 64 * |bits| ensures BitAt(bits', d) == if d == c then value else BitAt(bits, d) {
    }
  }

  lemma BitTested(w: Word, bit: nat)
    requires bit < 64
    ensures And(w, Shl(One(), bit)) != Zero() <==> w[bit]
    ensures Or(w, Shl(One(), bit)) == w[bit := true]
    ensures And(w, Not(Shl(One(), bit))) == w[bit := false]
  {
    AndIsZero(w, Shl(One(), bit));
  }

  /** The chunks `cs` become dirty, or clean. */
  function Turned(was: set<nat>, cs: set<nat>, dirty: bool): set<nat> {
    if dirty then was + cs else was - cs
  }

  lemma TurnedNext(was: set<nat>, cs: set<nat>, dirty: bool, c: nat)
    ensures Turned(was, {}, dirty) == was
    ensures Turned(Turned(was, cs, dirty), {c}, dirty) == Turned(was, cs + {c}, dirty)
  {
  }

  /** The chunks touched that come before `start`. */
  ghost function Below(sector: int, nb: int, start: int): set<nat> {
    set c | c in Touched(sector, nb) && c < start
  }

  lemma BelowFirst(sector: int, nb: int)
    ensures Below(sector, nb, CDiv(sector, CHUNK)) == {}
  {
  }

  lemma BelowNext(sector: int, nb: int, start: nat)
    requires Spans(sector, nb, start)
    ensures Below(sector, nb, start + 1) == Below(sector, nb, start) + {start}
  {
    assert start in Touched(sector, nb);
  }

  lemma BelowLast(sector: int, nb: int, start: int)
    requires CDiv(sector, CHUNK) <= start && start > CDiv(sector + nb - 1, CHUNK)
    ensures Below(sector, nb, start) == Touched(sector, nb)
  {
  }

  lemma BoundOf(total: nat, sector: int, nb: int, c: int)
    requires Inside(total, sector, nb) && Spans(sector, nb, c)
    ensures 0 <= c < 64 * BitmapSize(total)
  {
    InsideInBounds(total, sector, nb);
  }

  class Tracker {
    const total: nat        // sectors of the device
    var bitmap: array?<Word>
    var dirtyCount: int

    constructor (total: nat)
      ensures this.total == total && bitmap == null && dirtyCount == 0
    {
      this.total, bitmap, dirtyCount := total, null, 0;
    }

    ghost function Dirty(): set<nat>
      reads this, bitmap
    {
      if bitmap == null then {} else SetOf(bitmap[..])
    }

    ghost predicate Valid()
      reads this
    {
      bitmap != null ==> bitmap.Length == BitmapSize(total)
    }

    /** The cached count is the number of set bits. */
    ghost predicate Counted()
      reads this, bitmap
    {
      dirtyCount == |Dirty()|
    }

    /** `set_dirty_bitmap`, for requests that do not leave the bitmap */
    method SetDirtyBitmap(sector: int, nb: int, dirty: bool)
      requires Valid() && bitmap != null && Inside(total, sector, nb)
      modifies this`dirtyCount, bitmap
      ensures Valid()
      ensures Dirty() == Turned(old(Dirty()), Touched(sector, nb), dirty)
      ensures old(Counted()) ==> Counted()
    {
      hide SetOf, Touched, Turned, Below, BitmapSize, Inside, Tracker.Dirty, Tracker.Counted;
      var start := CDiv(sector, CHUNK);
      var end := CDiv(sector + nb - 1, CHUNK);
      BelowFirst(sector, nb);
      ghost var was := Dirty();
      TurnedNext(was, {}, dirty, 0);
      while start <= end
        invariant CDiv(sector, CHUNK) <= start
        invariant Dirty() == Turned(was, Below(sector, nb, start), dirty)
        invariant old(Counted()) ==> Counted()
      {
        BoundOf(total, sector, nb, start);
        BelowNext(sector, nb, start);
        TurnedNext(was, Below(sector, nb, start), dirty, start);
        MarkOne(start, dirty);
        start := start + 1;
      }
      BelowLast(sector, nb, start);
    }

    /** One round of the loop. */
    method MarkOne(chunk: nat, dirty: bool)
      requires bitmap != null && chunk < 64 * bitmap.Length
      modifies this`dirtyCount, bitmap
      ensures Dirty() == Turned(old(Dirty()), {chunk}, dirty)
      ensures old(Counted()) ==> Counted()
    {
      hide SetOf, And, Or, Not, Shl, One, Zero;
      var idx, bit := chunk / BITS_PER_LONG, chunk % BITS_PER_LONG;
      var val := bitmap[idx];
      BitTested(val, bit);
      Changed(bitmap[..], chunk, dirty);
      ghost var was := bitmap[..];
      if dirty {
        if And(val, Shl(One(), bit)) == Zero() {
          dirtyCount := dirtyCount + 1;
          val := Or(val, Shl(One(), bit));
        }
      } else {
        if And(val, Shl(One(), bit)) != Zero() {
          dirtyCount := dirtyCount - 1;
          val := And(val, Not(Shl(One(), bit)));
        }
      }
      assert val == was[idx][bit := dirty];
      bitmap[idx] := val;
      assert bitmap[..] == was[idx := was[idx][bit := dirty]];
    }

    /** `bdrv_set_dirty_tracking`.  Turning tracking on again over a bitmap that is there forgets the count
        but not the bits, so the count is right afterwards exactly when there were none. */
    method SetDirtyTracking(enable: bool)
      requires Valid()
      modifies this
      ensures Valid() && dirtyCount == 0 && (bitmap != null <==> enable)
      ensures Dirty() == if enable then old(Dirty()) else {}
      ensures Counted() <==> !enable || old(Dirty()) == {}
      ensures bitmap == old(bitmap) || bitmap == null || fresh(bitmap)
    {
      dirtyCount := 0;
      if enable {
        if bitmap == null {
          bitmap := new Word[BitmapSize(total)](i => Zero());
          assert SetOf(bitmap[..]) == {};
        }
      } else {
        if bitmap != null {
          bitmap := null;
        }
      }
    }

    /** `bdrv_get_dirty` */
    method GetDirty(sector: nat) returns (r: bool)
      requires Valid()
      ensures r == (bitmap != null && sector < total && sector / CHUNK in Dirty())
    {
      var chunk := sector / CHUNK;
      if bitmap != null && sector < total {
        BitTested(bitmap[chunk / BITS_PER_LONG], chunk % BITS_PER_LONG);
        r := And(bitmap[chunk / BITS_PER_LONG], Shl(One(), chunk % BITS_PER_LONG)) != Zero();
      } else {
        r := false;
      }
    }
  }

  // ----- a history of writes and resets -----

  datatype Op = Op(sector: nat, nb: nat, dirty: bool)

  /** What a history of calls of `set_dirty_bitmap` leaves dirty. */
  ghost function DirtyAfter(dirty: set<nat>, ops: seq<Op>): set<nat> {
    if ops == [] then dirty
    else
      var op := ops[|ops| - 1];
      var before := DirtyAfter(dirty, ops[..|ops| - 1]);
      Turned(before, Touched(op.sector, op.nb), op.dirty)
  }

  /** Call `k` was a write to chunk `c`, and it has not been reset since. */
  ghost predicate WrittenAt(ops: seq<Op>, c: nat, k: nat)
    requires k < |ops|
  {
    && ops[k].dirty && c in Touched(ops[k].sector, ops[k].nb)
    && forall j :: k < j < |ops| && !ops[j].dirty ==> c !in Touched(ops[j].sector, ops[j].nb)
  }

  /** A chunk is dirty if and only if it was written since it was last reset. */
  lemma {:induction false} DirtyIffWritten(ops: seq<Op>, c: nat)
    ensures c in DirtyAfter({}, ops) <==> exists k: nat :: k < |ops| && WrittenAt(ops, c, k)
  {
    if ops != [] {
      var n := |ops| - 1;
      var front := ops[..n];
      DirtyIffWritten(front, c);
      if k: nat :| k < |ops| && WrittenAt(ops, c, k) {
        if k < n {
          assert WrittenAt(front, c, k);
        }
      }
      if c in DirtyAfter({}, ops) {
        if ops[n].dirty && c in Touched(ops[n].sector, ops[n].nb) {
          assert WrittenAt(ops, c, n);
        } else {
          var k: nat :| k < |front| && WrittenAt(front, c, k);
          assert WrittenAt(ops, c, k);
        }
      }
    }
  }
}
