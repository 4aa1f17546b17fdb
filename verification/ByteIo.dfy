/** Byte reads and writes over a device of sectors (src/block.c:1531-1558, 1692-1784). */
module ByteIo {
  const SECTOR := 512
  const EIO := 5

  type Byte = bv8

  /** `d` with `b` at `at`. */
  function Spliced(d: seq<Byte>, at: nat, b: seq<Byte>): (r: seq<Byte>)
    requires at + |b| <= |d|
    ensures |r| == |d|
  {
    d[..at] + b + d[at + |b|..]
  }

  /** Every byte is as it was, or as `b` at `at` has it. */
  predicate Between(was: seq<Byte>, now: seq<Byte>, at: int, b: seq<Byte>) {
    && |now| == |was|
    && forall i :: 0 <= i < |was| ==> now[i] == was[i] || (at <= i < at + |b| && now[i] == b[i - at])
  }

  /** Splicing goes on where it stopped. */
  lemma SplicedNext(d: seq<Byte>, at: nat, b: seq<Byte>, i: nat, j: nat)
    requires i <= j <= |b| && at + j <= |d|
    ensures Spliced(Spliced(d, at, b[..i]), at + i, b[i..j]) == Spliced(d, at, b[..j])
  {
    assert b[..j] == b[..i] + b[i..j];
    SplicedTwice(d, at, b[..i], b[i..j]);
  }

  lemma SplicedTwice(d: seq<Byte>, at: nat, a: seq<Byte>, b: seq<Byte>)
    requires at + |a| + |b| <= |d|
    ensures Spliced(Spliced(d, at, a), at + |a|, b) == Spliced(d, at, a + b)
  {
  }

  /** Read-modify-write of a run of bytes is a splice of what was modified. */
  lemma SplicedInside(d: seq<Byte>, at: nat, n: nat, off: nat, b: seq<Byte>)
    requires at + n <= |d| && off + |b| <= n
    ensures Spliced(d, at, Spliced(d[at..at + n], off, b)) == Spliced(d, at + off, b)
  {
  }

  lemma BetweenInside(d: seq<Byte>, now: seq<Byte>, at: nat, n: nat, off: nat, b: seq<Byte>)
    requires at + n <= |d| && off + |b| <= n && Between(d, now, at, Spliced(d[at..at + n], off, b))
    ensures Between(d, now, at + off, b)
  {
  }

  /** What was a state between stays one while more of `b` arrives. */
  lemma BetweenNext(d: seq<Byte>, now: seq<Byte>, at: nat, b: seq<Byte>, i: nat, j: nat)
    requires i <= j <= |b| && at + i <= |d|
    requires Between(Spliced(d, at, b[..i]), now, at + i, b[i..j])
    ensures Between(d, now, at, b)
  {
  }

  lemma BetweenSame(d: seq<Byte>, at: int, b: seq<Byte>)
    ensures Between(d, d, at, b)
  {
  }

  /** The first `i` bytes of `b` are those of the device from `at` on, and its last ones as they were. */
  ghost predicate Filled(was: seq<Byte>, b: seq<Byte>, data: seq<Byte>, at: int, i: nat, count: nat) {
    && i <= count <= |b| == |was| && b[count..] == was[count..]
    && (i > 0 ==> 0 <= at && at + i <= |data| && b[..i] == data[at..at + i])
  }

  lemma SliceOfSlice(d: seq<Byte>, from: nat, to: nat, i: nat, j: nat)
    requires from <= to <= |d| && i <= j <= to - from
    ensures d[from..to][i..j] == d[from + i..from + j]
  {
    var a, b := d[from..to][i..j], d[from + i..from + j];
    assert |a| == |b|;
    forall k | 0 <= k < |a| ensures a[k] == b[k] {
      assert a[k] == d[from..to][i + k] == d[from + i + k];
    }
  }

  lemma FilledNone(b: seq<Byte>, data: seq<Byte>, at: int, count: nat)
    requires count <= |b|
    ensures Filled(b, b, data, at, 0, count)
  {
  }

  lemma FilledTail(was: seq<Byte>, b: seq<Byte>, data: seq<Byte>, at: int, i: nat, count: nat)
    requires Filled(was, b, data, at, i, count)
    ensures i <= count <= |b| == |was| && b[count..] == was[count..]
  {
  }

  lemma FilledNext(was: seq<Byte>, b: seq<Byte>, data: seq<Byte>, at: int, i: nat, count: nat, piece: seq<Byte>)
    requires Filled(was, b, data, at, i, count) && i + |piece| <= count
    requires 0 <= at + i && at + i + |piece| <= |data| && piece == data[at + i..at + i + |piece|]
    ensures |piece| > 0 ==> Filled(was, Spliced(b, i, piece), data, at, i + |piece|, count)
  {
    var s := Spliced(b, i, piece);
    assert s[count..] == b[count..];
    assert s[..i + |piece|] == b[..i] + piece;
    if i > 0 {
      assert data[at..at + i] + piece == data[at..at + i + |piece|];
    }
  }

  /** The first `i` bytes of `b` have been written at `at`. */
  ghost predicate Written(was: seq<Byte>, now: seq<Byte>, at: int, b: seq<Byte>, i: nat) {
    && i <= |b|
    && if i == 0 then now == was else 0 <= at && at + i <= |was| && now == Spliced(was, at, b[..i])
  }

  lemma WrittenNext(was: seq<Byte>, mid: seq<Byte>, now: seq<Byte>, at: int, b: seq<Byte>, i: nat, j: nat)
    requires Written(was, mid, at, b, i) && i < j <= |b| && 0 <= at + i && at + j <= |was|
    requires now == Spliced(mid, at + i, b[i..j])
    ensures Written(was, now, at, b, j)
  {
    if i == 0 {
      assert b[0..j] == b[..j];
    } else {
      SplicedNext(was, at, b, i, j);
    }
  }

  lemma WrittenBetween(was: seq<Byte>, mid: seq<Byte>, now: seq<Byte>, at: int, b: seq<Byte>, i: nat, j: nat)
    requires Written(was, mid, at, b, i) && i <= j <= |b| && Between(mid, now, at + i, b[i..j])
    ensures Between(was, now, at, b)
  {
    if i == 0 {
      assert b[0..j] == b[..j];
    } else {
      BetweenNext(was, now, at, b, i, j);
    }
  }

  /** The pieces in which bytes are moved: part of a first sector, whole sectors, part of a last one. */
  datatype Piece = Head | Middle | Tail

  function HeadLength(offset: int, count: nat): nat {
    var len := (SECTOR - offset) % SECTOR;
    if len > count then count else len
  }

  /** Which of the driver's reads and writes fail. */
  datatype Faults = Faults(read: Piece -> bool, write: Piece -> bool) {
    /** No read that a read of the bytes needs fails. */
    predicate SparesRead(offset: int, count: nat) {
      (HeadLength(offset, count) > 0 ==> !read(Head)) && SparesAlignedRead(count - HeadLength(offset, count))
    }

    predicate SparesAlignedRead(count: nat) {
      (count >= SECTOR ==> !read(Middle)) && (count % SECTOR > 0 ==> !read(Tail))
    }

    /** No access that a write of the bytes needs fails; parts of sectors are read before they are written. */
    predicate SparesWrite(offset: int, count: nat) {
      && (HeadLength(offset, count) > 0 ==> !read(Head) && !write(Head))
      && SparesAlignedWrite(count - HeadLength(offset, count))
    }

    predicate SparesAlignedWrite(count: nat) {
      (count >= SECTOR ==> !write(Middle)) && (count % SECTOR > 0 ==> !read(Tail) && !write(Tail))
    }
  }

  class Disk {
    const sectors: nat
    var data: seq<Byte>

    ghost predicate Valid()
      reads this
    {
      |data| == sectors * SECTOR
    }

    constructor (sectors: nat)
      ensures Valid() && this.sectors == sectors
    {
      this.sectors := sectors;
      data := seq(sectors * SECTOR, _ => 0);
    }

    /** `bdrv_check_request`, the device not being growable */
    predicate InRange(sector: int, nb: nat) {
      0 <= sector && sector + nb <= sectors
    }

    /** All the bytes asked for lie in the device. */
    predicate HasBytes(offset: int, count: nat) {
      count > 0 ==> 0 <= offset && offset + count <= sectors * SECTOR
    }

    predicate HasAligned(sector: int, count: nat) {
      HasBytes(sector * SECTOR, count)
    }

    lemma HasBytesIs(offset: int, count: nat)
      ensures HasBytes(offset, count) <==>
                && (HeadLength(offset, count) > 0 ==> InRange(offset / SECTOR, 1))
                && HasAligned(if HeadLength(offset, count) > 0 then offset / SECTOR + 1 else offset / SECTOR,
                              count - HeadLength(offset, count))
    {
    }

    lemma NoBytes(sector: int)
      ensures HasAligned(sector, 0)
    {
    }

    lemma HasAlignedIs(sector: int, count: nat)
      ensures HasAligned(sector, count) <==>
                && (count >= SECTOR ==> InRange(sector, count / SECTOR))
                && (count % SECTOR > 0 ==> InRange(sector + count / SECTOR, 1))
    {
    }

    method Read(sector: int, nb: nat, fails: bool) returns (ret: int, buf: seq<Byte>)
      requires Valid()
      ensures ret >= 0 <==> InRange(sector, nb) && !fails
      ensures ret >= 0 ==> buf == data[sector * SECTOR..(sector + nb) * SECTOR]
    {
      if !InRange(sector, nb) {
        return -EIO, [];
      }
      if fails {
        ret :| ret < 0;
        return ret, [];
      }
      return 0, data[sector * SECTOR..(sector + nb) * SECTOR];
    }

    /** A write; when the driver fails, some of the bytes may have arrived. */
    method Write(sector: int, buf: seq<Byte>, fails: bool) returns (ret: int)
      requires Valid() && |buf| % SECTOR == 0
      modifies this
      ensures Valid()
      ensures ret >= 0 <==> InRange(sector, |buf| / SECTOR) && !fails
      ensures !InRange(sector, |buf| / SECTOR) ==> data == old(data)
      ensures ret >= 0 ==> data == Spliced(old(data), sector * SECTOR, buf)
      ensures ret < 0 ==> Between(old(data), data, sector * SECTOR, buf)
    {
      if !InRange(sector, |buf| / SECTOR) {
        return -EIO;
      }
      if !fails {
        ret := 0;
        data := Spliced(data, sector * SECTOR, buf);
      } else {
        ret :| ret < 0;
        assert Between(data, data, sector * SECTOR, buf);
        var torn :| Between(data, torn, sector * SECTOR, buf);
        assert Between(data, torn, sector * SECTOR, buf);
        data := torn;
      }
    }
  
    /** A sector read, changed and written back, as at both ends of `bdrv_pwrite`. */
    method Modify(sector: int, off: nat, b: seq<Byte>, readFails: bool, writeFails: bool) returns (ret: int)
      requires Valid() && off + |b| <= SECTOR
      modifies this
      ensures Valid()
      ensures ret >= 0 <==> InRange(sector, 1) && !readFails && !writeFails
      ensures ret >= 0 ==> data == Spliced(old(data), sector * SECTOR + off, b)
      ensures ret < 0 ==> Between(old(data), data, sector * SECTOR + off, b)
    {
      hide Spliced, Between;
      var tmp;
      ret, tmp := Read(sector, 1, readFails);
      if ret < 0 {
        BetweenSame(data, sector * SECTOR + off, b);
        return;
      }
      SplicedInside(data, sector * SECTOR, SECTOR, off, b);
      ret := Write(sector, Spliced(tmp, off, b), writeFails);
      if ret < 0 {
        BetweenInside(old(data), data, sector * SECTOR, SECTOR, off, b);
      }
    }

    /** `bdrv_pwrite`.  It fails exactly when bytes lie outside the device or the driver fails. */
    method Pwrite(offset: int, buf: seq<Byte>, faults: Faults) returns (ret: int)
      requires Valid()
      modifies this
      ensures Valid()
      ensures ret >= 0 <==> HasBytes(offset, |buf|) && faults.SparesWrite(offset, |buf|)
      ensures ret >= 0 ==> ret == |buf| && Written(old(data), data, offset, buf, |buf|)
      ensures ret < 0 ==> Between(old(data), data, offset, buf)
    {
      hide Spliced, Between, HasBytes, HasAligned;
      HasBytesIs(offset, |buf|);
      NoBytes(if HeadLength(offset, |buf|) > 0 then offset / SECTOR + 1 else offset / SECTOR);
      var count := |buf|;
      var len := (SECTOR - offset) % SECTOR;
      if len > count {
        len := count;
      }
      var sector := offset / SECTOR;
      var at := 0;
      if len > 0 {
        ret := Modify(sector, offset % SECTOR, buf[..len], faults.read(Head), faults.write(Head));
        assert buf[0..len] == buf[..len];
        if ret < 0 {
          WrittenBetween(old(data), old(data), data, offset, buf, 0, len);
          return;
        }
        WrittenNext(old(data), old(data), data, offset, buf, 0, len);
        count := count - len;
        if count == 0 {
          return |buf|;
        }
        sector := sector + 1;
        at := len;
      }
      ret := PwriteAligned(sector, offset, buf, at, faults, old(data));
    }

    /** The rest of `bdrv_pwrite`, from a sector boundary on. */
    method PwriteAligned(sector: int, offset: int, buf: seq<Byte>, done: nat, faults: Faults, ghost was: seq<Byte>)
      returns (ret: int)
      requires Valid() && Written(was, data, offset, buf, done) && |was| == |data|
      requires done <= |buf| && (done < |buf| ==> sector * SECTOR == offset + done)
      modifies this
      ensures Valid()
      ensures ret >= 0 <==> HasAligned(sector, |buf| - done) && faults.SparesAlignedWrite(|buf| - done)
      ensures ret >= 0 ==> ret == |buf| && Written(was, data, offset, buf, |buf|)
      ensures ret < 0 ==> Between(was, data, offset, buf)
    {
      hide Spliced, Between, Written, HasAligned;
      HasAlignedIs(sector, |buf| - done);
      var next, at, count := sector, done, |buf| - done;
      var nb := count / SECTOR;
      if nb > 0 {
        ghost var mid := data;
        ret := Write(next, buf[at..at + nb * SECTOR], faults.write(Middle));
        if ret < 0 {
          WrittenBetween(was, mid, data, offset, buf, at, at + nb * SECTOR);
          return;
        }
        WrittenNext(was, mid, data, offset, buf, at, at + nb * SECTOR);
        next := next + nb;
        at := at + nb * SECTOR;
        count := count - nb * SECTOR;
      }
      if count > 0 {
        ghost var mid := data;
        ret := Modify(next, 0, buf[at..], faults.read(Tail), faults.write(Tail));
        assert buf[at..] == buf[at..|buf|];
        if ret < 0 {
          WrittenBetween(was, mid, data, offset, buf, at, |buf|);
          return;
        }
        WrittenNext(was, mid, data, offset, buf, at, |buf|);
      }
      return |buf|;
    }
  
    /** A read of `nb` sectors, `len` bytes of which go into `buf` at `at`. */
    method Fetch(sector: int, nb: nat, off: nat, len: nat, buf: array<Byte>, at: nat, count: nat, fails: bool,
                 ghost offset: int, ghost was: seq<Byte>)
      returns (ret: int)
      requires Valid() && Filled(was, buf[..], data, offset, at, count)
      requires 0 < len && off + len <= nb * SECTOR && at + len <= count && sector * SECTOR + off == offset + at
      modifies buf
      ensures ret >= 0 <==> InRange(sector, nb) && !fails
      ensures |was| == buf.Length && (ret < 0 ==> buf[..] == old(buf[..]))
      ensures ret >= 0 ==> Filled(was, buf[..], data, offset, at + len, count)
    {
      hide Spliced;
      var tmp;
      ret, tmp := Read(sector, nb, fails);
      if ret < 0 {
        return;
      }
      SliceOfSlice(data, sector * SECTOR, (sector + nb) * SECTOR, off, off + len);
      FilledNext(was, buf[..], data, offset, at, count, tmp[off..off + len]);
      Copy(buf, at, tmp[off..off + len]);
    }

    /** `bdrv_pread`, into the first `count` bytes of `buf`.  It fails exactly when bytes lie outside the device or
        the driver fails. */
    method Pread(offset: int, buf: array<Byte>, count: nat, faults: Faults) returns (ret: int)
      requires Valid() && count <= buf.Length
      modifies buf
      ensures ret >= 0 <==> HasBytes(offset, count) && faults.SparesRead(offset, count)
      ensures ret >= 0 ==> ret == count && Filled(old(buf[..]), buf[..], data, offset, count, count)
      ensures buf[count..] == old(buf[count..])
    {
      hide Filled, HasBytes, HasAligned;
      HasBytesIs(offset, count);
      NoBytes(if HeadLength(offset, count) > 0 then offset / SECTOR + 1 else offset / SECTOR);
      ghost var was := buf[..];
      FilledNone(was, data, offset, count);
      var left := count;
      var len := (SECTOR - offset) % SECTOR;
      if len > left {
        len := left;
      }
      var sector := offset / SECTOR;
      var at := 0;
      if len > 0 {
        ret := Fetch(sector, 1, offset % SECTOR, len, buf, 0, count, faults.read(Head), offset, was);
        if ret < 0 {
          return;
        }
        FilledTail(was, buf[..], data, offset, len, count);
        left := left - len;
        if left == 0 {
          return count;
        }
        sector := sector + 1;
        at := len;
      }
      ret := PreadAligned(sector, offset, buf, at, count, faults, was);
    }

    /** The rest of `bdrv_pread`, from a sector boundary on. */
    method PreadAligned(sector: int, offset: int, buf: array<Byte>, done: nat, count: nat, faults: Faults,
                        ghost was: seq<Byte>)
      returns (ret: int)
      requires Valid() && Filled(was, buf[..], data, offset, done, count) && count <= |was|
      requires done < count ==> sector * SECTOR == offset + done
      modifies buf
      ensures ret >= 0 <==> HasAligned(sector, count - done) && faults.SparesAlignedRead(count - done)
      ensures ret >= 0 ==> ret == count && Filled(was, buf[..], data, offset, count, count)
      ensures |was| == buf.Length && buf[count..] == was[count..]
    {
      hide Filled, HasAligned;
      FilledTail(was, buf[..], data, offset, done, count);
      HasAlignedIs(sector, count - done);
      var next, at, left := sector, done, count - done;
      var nb := left / SECTOR;
      if nb > 0 {
        ret := Fetch(next, nb, 0, nb * SECTOR, buf, at, count, faults.read(Middle), offset, was);
        if ret < 0 {
          return;
        }
        next := next + nb;
        at := at + nb * SECTOR;
        left := left - nb * SECTOR;
        FilledTail(was, buf[..], data, offset, at, count);
      }
      if left > 0 {
        ret := Fetch(next, 1, 0, left, buf, at, count, faults.read(Tail), offset, was);
        if ret < 0 {
          return;
        }
        FilledTail(was, buf[..], data, offset, count, count);
      }
      return count;
    }
  }

  /** `memcpy` */
  method Copy(buf: array<Byte>, at: nat, b: seq<Byte>)
    requires at + |b| <= buf.Length
    modifies buf
    ensures buf[..] == Spliced(old(buf[..]), at, b)
  {
    for i := 0 to |b|
      invariant forall k :: 0 <= k < buf.Length ==> buf[k] == if at <= k < at + i then b[k - at] else old(buf[k])
    {
      buf[at + i] := b[i];
    }
  }

  /** A write followed by a read of any range: the bytes written where they overlap, the old ones elsewhere.  Both
      succeed exactly when the bytes lie in the device and the driver does not fail. */
  method WriteThenRead(disk: Disk, offset: int, data: seq<Byte>, from: int, buf: array<Byte>, w: Faults, r: Faults)
    returns (ok: bool)
    requires disk.Valid()
    modifies disk, buf
    ensures ok <==> && disk.HasBytes(offset, |data|) && w.SparesWrite(offset, |data|)
                    && disk.HasBytes(from, buf.Length) && r.SparesRead(from, buf.Length)
    ensures ok ==> forall i :: 0 <= i < buf.Length && 0 <= from + i < |old(disk.data)| ==>
                     buf[i] == if offset <= from + i < offset + |data| then data[from + i - offset] else old(disk.data)[from + i]
    ensures ok && from == offset && buf.Length == |data| ==> buf[..] == data
  {
    hide Faults.SparesWrite, Faults.SparesRead;
    var ret := disk.Pwrite(offset, data, w);
    if ret < 0 {
      return false;
    }
    ret := disk.Pread(from, buf, buf.Length, r);
    ok := ret >= 0;
    assert buf[..buf.Length] == buf[..];
  }
}
