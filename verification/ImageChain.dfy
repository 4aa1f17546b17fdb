/** Chains of images over backing files: allocation queries (src/block.c:2309-2415) and commit
    (src/block.c:1321-1342).  Whether the driver fails is an input; a write that fails may have reached any of
    its sectors. */
module ImageChain {
  type Sector = seq<bv8>

  const ZEROES: Sector := seq(512, _ => 0)

  const COMMIT_BUF_SECTORS := 2048

  const EIO := 5

  predicate Within(x: nat, sector: nat, nb: nat) {
    sector <= x < sector + nb
  }

  /** One image: the sectors it holds itself.  Drivers without an allocation query hold all of them. */
  class Image {
    const backing: Image?
    const total: nat
    const queries: bool
    var data: map<nat, Sector>

    constructor (backing: Image?, total: nat, queries: bool, data: map<nat, Sector>)
      ensures this.backing == backing && this.total == total && this.data == data
      ensures this.queries == queries
    {
      this.backing, this.total, this.data := backing, total, data;
      this.queries := queries;
    }

    predicate Has(x: nat)
      reads this
    {
      x < total && (!queries || x in data)
    }

    /** All `n` sectors are in the image's range and none is allocated there. */
    ghost predicate Lacks(sector: nat, n: nat)
      reads this
    {
      (n > 0 ==> sector + n <= total) && forall x: nat :: sector <= x < sector + n ==> !Has(x)
    }

    function Content(x: nat): Sector
      reads this
    {
      if x in data then data[x] else ZEROES
    }

    /** The driver's query, for a request inside the image: an accurate run. */
    method DriverQuery(sector: nat, nb: nat) returns (ret: int, pnum: nat)
      requires queries && sector < total && sector + nb <= total
      ensures pnum <= nb && (nb > 0 ==> pnum >= 1)
      ensures ret == if Has(sector) then 1 else 0
      ensures forall x: nat :: sector <= x < sector + pnum ==> (Has(x) <==> ret > 0)
    {
      ret := if Has(sector) then 1 else 0;
      pnum :| (nb > 0 ==> 1 <= pnum) && pnum <= nb && forall x: nat :: sector <= x < sector + pnum ==> Has(x) == Has(sector);
    }

    /** The driver is asked only about sectors in the image, and only if it has a query. */
    predicate Asked(sector: nat) {
      queries && sector < total
    }

    /** `bdrv_co_is_allocated`; `fails` is whether the driver's query fails, and then the length of the run is what
        the caller's variable held, `stale`. */
    method IsAllocated(sector: nat, nb: nat, fails: bool, stale: int) returns (ret: int, pnum: int)
      ensures ret < 0 <==> Asked(sector) && fails
      ensures ret > 0 <==> Has(sector) && !(Asked(sector) && fails)
      ensures ret < 0 ==> pnum == stale
      ensures ret >= 0 ==> 0 <= pnum <= nb && (pnum > 0 ==> sector + pnum <= total)
      ensures sector >= total ==> ret == 0 && pnum == 0
      ensures sector < total && nb > 0 && ret >= 0 ==> pnum >= 1
      ensures ret > 0 ==> forall x: nat :: sector <= x < sector + pnum ==> Has(x)
      ensures ret == 0 ==> forall x: nat :: sector <= x < sector + pnum ==> !Has(x)
    {
      if sector >= total {
        return 0, 0;
      }
      var n := total - sector;
      var clamped := if n < nb then n else nb;
      if !queries {
        return 1, clamped;
      }
      if fails {
        return -EIO, stale;
      }
      ret, pnum := DriverQuery(sector, clamped);
    }

    /** A write: refused outside the image, and otherwise with any subset of its sectors stored when the
        driver fails. */
    method Write(sector: nat, buf: seq<Sector>, fails: bool) returns (ok: bool)
      modifies this
      ensures ok <==> sector + |buf| <= total && !fails
      ensures sector + |buf| > total ==> data == old(data)
      ensures Rewritten(old(data), data, sector, buf)
      ensures ok ==> forall x: nat :: sector <= x < sector + |buf| ==> x in data && data[x] == buf[x - sector]
    {
      if sector + |buf| > total {
        return false;
      }
      var all := set x: nat | sector <= x < sector + |buf| && Within(x, sector, |buf|);
      var written: set<nat> := *;
      ok := !fails;
      if ok {
        written := all;
      }
      data := data + map x: nat | x in written * all :: buf[x - sector];
    }

    /** `bdrv_make_empty` of the driver: drops all sectors, or some of them when it fails. */
    method MakeEmpty(fails: bool) returns (ok: bool)
      modifies this
      ensures ok <==> !fails
      ensures data.Keys <= old(data.Keys) && forall x :: x in data ==> data[x] == old(data)[x]
      ensures ok ==> data == map[]
    {
      ok := !fails;
      if ok {
        data := map[];
      } else {
        var dropped: set<nat> := *;
        data := data - dropped;
      }
    }
  }

  /** `after` differs from `before` at most in sectors of the write, which then hold its data. */
  ghost predicate Rewritten(before: map<nat, Sector>, after: map<nat, Sector>, sector: nat, buf: seq<Sector>) {
    && before.Keys <= after.Keys
    && forall x :: x in after ==>
         || (x in before && after[x] == before[x])
         || (sector <= x < sector + |buf| && after[x] == buf[x - sector])
  }

  // ----- chains -----

  /** `images` are the images reached from `top` through `backing_hd`, in order. */
  ghost predicate Linked(top: Image?, images: seq<Image>)
    decreases |images|
  {
    if top == null then images == []
    else |images| > 0 && images[0] == top && Linked(top.backing, images[1..])
  }

  /** The images from the top down to, but not including, `base`. */
  ghost function Above(images: seq<Image>, base: Image?): seq<Image> {
    if images == [] || images[0] == base then [] else [images[0]] + Above(images[1..], base)
  }

  /** What a read of sector `x` through the chain returns; a short image reads as zeroes past its end. */
  function ReadChain(images: seq<Image>, x: nat): Sector
    reads images
  {
    if images == [] || x >= images[0].total then ZEROES
    else if images[0].Has(x) then images[0].Content(x)
    else ReadChain(images[1..], x)
  }

  ghost predicate NoneHas(images: seq<Image>, sector: nat, n: nat)
    reads images
  {
    forall i :: 0 <= i < |images| ==> images[i].Lacks(sector, n)
  }

  ghost predicate SomeHas(images: seq<Image>, x: nat)
    reads images
  {
    exists i :: 0 <= i < |images| && images[i].Has(x)
  }

  ghost predicate SomeEnds(images: seq<Image>, x: nat) {
    exists i :: 0 <= i < |images| && images[i].total <= x
  }

  lemma {:induction false} AboveSteps(images: seq<Image>, base: Image?, k: nat)
    requires k < |images|
    requires forall i :: 0 <= i < k ==> images[i] != base
    ensures |Above(images, base)| >= k && Above(images, base)[..k] == images[..k]
    ensures images[k] != base ==> |Above(images, base)| > k && Above(images, base)[k] == images[k]
    ensures images[k] == base ==> |Above(images, base)| == k
  {
    if k > 0 {
      AboveSteps(images[1..], base, k - 1);
      assert images[..k] == [images[0]] + images[1..][..k - 1];
      assert Above(images, base)[..k] == [images[0]] + Above(images[1..], base)[..k - 1];
    }
  }

  lemma {:induction false} AboveAll(images: seq<Image>, base: Image?)
    requires forall i :: 0 <= i < |images| ==> images[i] != base
    ensures Above(images, base) == images
  {
    if images != [] {
      AboveAll(images[1..], base);
    }
  }

  lemma {:induction false} LinkedFrom(top: Image?, images: seq<Image>, k: nat)
    requires Linked(top, images) && k < |images|
    ensures Linked(images[k], images[k..]) && Linked(images[k].backing, images[k + 1..])
  {
    if k > 0 {
      LinkedFrom(top.backing, images[1..], k - 1);
      assert images[1..][k - 1..] == images[k..] && images[1..][k..] == images[k + 1..];
    } else {
      assert images[0..] == images;
    }
  }

  /** The search of `bdrv_co_is_allocated_above` ends at image `k`: it holds the sector, or its query fails. */
  ghost predicate EndsAt(images: seq<Image>, fails: nat -> bool, sector: nat, k: nat)
    reads images
  {
    k < |images| && (images[k].Has(sector) || (images[k].Asked(sector) && fails(k)))
  }

  ghost predicate EndsLater(images: seq<Image>, fails: nat -> bool, sector: nat, k: nat)
    reads images
  {
    forall j: nat :: j < k ==> !EndsAt(images, fails, sector, j)
  }

  ghost predicate EndsFirstAt(images: seq<Image>, fails: nat -> bool, sector: nat, k: nat)
    reads images
  {
    EndsAt(images, fails, sector, k) && EndsLater(images, fails, sector, k)
  }

  /** `bdrv_co_is_allocated_above`; `fails(k)` is whether the query to the `k`th image fails.  The answer is exact
      for the first sector and sound for the run; the run is empty exactly when an image above `base` ends at or
      before `sector`; and it is an error exactly when a query fails before an image with the sector is found. */
  method IsAllocatedAbove(top: Image?, base: Image?, sector: nat, nb: nat, fails: nat -> bool, ghost images: seq<Image>)
    returns (ret: int, pnum: nat)
    requires Linked(top, images)
    ensures ret == 0 ==> NoneHas(Above(images, base), sector, pnum)
    ensures ret > 0 ==> exists k :: 0 <= k < |Above(images, base)| &&
                          forall x: nat :: sector <= x < sector + pnum ==> Above(images, base)[k].Has(x)
    ensures nb > 0 && ret > 0 ==> pnum > 0
    ensures nb > 0 && ret == 0 ==> !SomeHas(Above(images, base), sector)
    ensures nb > 0 && ret == 0 ==> (pnum == 0 <==> SomeEnds(Above(images, base), sector))
    ensures pnum <= nb
    ensures ret == 0 <==> forall k: nat :: !EndsAt(Above(images, base), fails, sector, k)
    ensures ret < 0 <==> exists k: nat :: EndsFirstAt(Above(images, base), fails, sector, k) &&
                           Above(images, base)[k].Asked(sector) && fails(k)
  {
    hide EndsAt, EndsLater, EndsFirstAt, SomeHas, SomeEnds, NoneHas;
    NoneYet(images, sector, nb);
    var n: nat, i: nat := nb, 0;
    LaterNext(images, fails, sector, 0);
    var intermediate := top;
    ghost var above := Above(images, base);
    assert images[0..] == images;
    while intermediate != null && intermediate != base
      invariant i <= |images| && Linked(intermediate, images[i..])
      invariant forall j :: 0 <= j < i ==> images[j] != base
      invariant NoneHas(images[..i], sector, n) && n <= nb
      invariant nb > 0 ==> !SomeHas(images[..i], sector)
      invariant nb > 0 ==> (n == 0 <==> SomeEnds(images[..i], sector))
      invariant EndsLater(images, fails, sector, i)
      decreases |images| - i
    {
      AboveSteps(images, base, i);
      LaterNext(images, fails, sector, i);
      var inter;
      ret, inter := intermediate.IsAllocated(sector, nb, fails(i), 0);
      if ret < 0 {
        FirstIs(images, above, fails, sector, i);
        return ret, 0;
      } else if ret != 0 {
        FirstIs(images, above, fails, sector, i);
        return 1, inter;
      }
      Extend(images, i, sector, n, nb, inter);
      if n > inter {
        n := inter;
      }
      LinkedFrom(intermediate, images[i..], 0);
      assert images[i..][1..] == images[i + 1..];
      intermediate := intermediate.backing;
      i := i + 1;
    }
    Stops(images, base, i);
    NeverEnds(images, above, fails, sector, i);
    return 0, n;
  }

  lemma LaterNext(images: seq<Image>, fails: nat -> bool, sector: nat, i: nat)
    ensures EndsLater(images, fails, sector, 0)
    ensures i < |images| ==> (EndsAt(images, fails, sector, i) <==>
              images[i].Has(sector) || (images[i].Asked(sector) && fails(i)))
    ensures EndsLater(images, fails, sector, i) && !EndsAt(images, fails, sector, i) ==> EndsLater(images, fails, sector, i + 1)
  {
  }

  lemma FirstIs(images: seq<Image>, above: seq<Image>, fails: nat -> bool, sector: nat, i: nat)
    requires i < |images| && i < |above| && above[..i] == images[..i] && above[i] == images[i]
    requires EndsLater(images, fails, sector, i) && EndsAt(images, fails, sector, i)
    ensures EndsAt(above, fails, sector, i)
    ensures forall k: nat :: EndsFirstAt(above, fails, sector, k) <==> k == i
  {
    forall j: nat | j < i ensures !EndsAt(above, fails, sector, j) {
      assert above[j] == above[..i][j] == images[..i][j] == images[j];
      assert !EndsAt(images, fails, sector, j);
    }
    assert EndsFirstAt(above, fails, sector, i);
    forall k: nat | EndsFirstAt(above, fails, sector, k) ensures k == i {
      assert k > i ==> !EndsAt(above, fails, sector, i);
    }
  }

  lemma NeverEnds(images: seq<Image>, above: seq<Image>, fails: nat -> bool, sector: nat, i: nat)
    requires i <= |images| && above == images[..i] && EndsLater(images, fails, sector, i)
    ensures forall k: nat :: !EndsAt(above, fails, sector, k) && !EndsFirstAt(above, fails, sector, k)
  {
    forall k: nat ensures !EndsAt(above, fails, sector, k) {
      if k < i {
        assert !EndsAt(images, fails, sector, k);
      }
    }
  }

  lemma NoneYet(images: seq<Image>, sector: nat, nb: nat)
    ensures NoneHas(images[..0], sector, nb) && !SomeHas(images[..0], sector) && !SomeEnds(images[..0], sector)
  {
  }

  lemma Extend(images: seq<Image>, k: nat, sector: nat, n: nat, nb: nat, inter: nat)
    requires k < |images| && NoneHas(images[..k], sector, n)
    requires sector >= images[k].total ==> inter == 0
    requires sector < images[k].total && nb > 0 ==> inter >= 1
    requires inter > 0 ==> sector + inter <= images[k].total
    requires forall x: nat :: sector <= x < sector + inter ==> !images[k].Has(x)
    requires nb > 0 ==> !SomeHas(images[..k], sector) && (n == 0 <==> SomeEnds(images[..k], sector))
    ensures NoneHas(images[..k + 1], sector, if n > inter then inter else n)
    ensures nb > 0 ==> !SomeHas(images[..k + 1], sector)
    ensures nb > 0 ==> ((if n > inter then inter else n) == 0 <==> SomeEnds(images[..k + 1], sector))
  {
    var a, b := images[..k], images[..k + 1];
    var m := if n > inter then inter else n;
    forall i | 0 <= i < |b| ensures b[i].Lacks(sector, m) {
      if i < k {
        assert b[i] == a[i] && a[i].Lacks(sector, n);
      }
    }
    assert forall i :: 0 <= i < k ==> b[i] == a[i];
    assert b[k] == images[k];
    if SomeEnds(a, sector) {
      var i :| 0 <= i < |a| && a[i].total <= sector;
      assert b[i].total <= sector;
    }
  }

  lemma Stops(images: seq<Image>, base: Image?, k: nat)
    requires k <= |images| && forall i :: 0 <= i < k ==> images[i] != base
    requires k < |images| ==> images[k] == base
    ensures Above(images, base) == images[..k]
  {
    if k < |images| {
      AboveSteps(images, base, k);
    } else {
      AboveAll(images, base);
      assert images[..k] == images;
    }
  }

  /** What a 0 from `IsAllocatedAbove` is for: the chain reads there as the chain from `base` on. */
  lemma {:induction false} UnallocatedReadsBase(images: seq<Image>, base: Image?, sector: nat, n: nat, x: nat)
    requires NoneHas(Above(images, base), sector, n) && sector <= x < sector + n
    ensures |Above(images, base)| <= |images|
    ensures ReadChain(images, x) == ReadChain(images[|Above(images, base)|..], x)
  {
    if images == [] || images[0] == base {
      assert images[0..] == images;
    } else {
      assert Above(images, base)[0].Lacks(sector, n);
      var above, rest := Above(images, base), Above(images[1..], base);
      assert forall i :: 0 <= i < |rest| ==> rest[i] == above[i + 1];
      assert above[0] == images[0];
      UnallocatedReadsBase(images[1..], base, sector, n, x);
      assert images[1..][|rest|..] == images[|above|..];
    }
  }

  // ----- commit -----

  /** Every sector below `upto` that `bs` holds is held by its backing file too, with the same data. */
  ghost predicate Committed(bs: Image, backing: Image, upto: nat)
    reads bs, backing
  {
    forall x: nat :: x < upto && bs.Has(x) ==> backing.Has(x) && backing.Content(x) == bs.Content(x)
  }

  lemma {:induction false} LinkedOnce(top: Image?, a: seq<Image>, b: seq<Image>)
    requires Linked(top, a) && Linked(top, b)
    ensures |a| == |b|
    decreases |a|
  {
    if top != null {
      LinkedOnce(top.backing, a[1..], b[1..]);
    }
  }

  lemma LinkedDistinct(top: Image, images: seq<Image>, k: nat)
    requires Linked(top, images) && 0 < k < |images|
    ensures images[k] != top
  {
    LinkedFrom(top, images, k);
    if images[k] == top {
      LinkedOnce(top, images, images[k..]);
    }
  }

  /** How the driver answers: query number `q` of the commit fails or not, with the run length left behind; the
      read and the write of the `k`th run that is copied; and the call that empties the image. */
  datatype Answers = Answers(queryFails: nat -> bool, stale: nat -> int, readFails: nat -> bool,
                             writeFails: nat -> bool, emptyFails: bool)

  /** A run that is copied down, and the query that told it. */
  datatype Run = Run(start: nat, n: int, query: nat) {
    /** It fits the buffer and both images. */
    predicate Fits(bs: Image, backing: Image) {
      0 <= n <= COMMIT_BUF_SECTORS && start + n <= bs.total && start + n <= backing.total
    }

    /** It holds allocated sectors, unless the query failed. */
    ghost predicate Told(bs: Image, io: Answers)
      reads bs
    {
      if bs.queries && io.queryFails(query) then n == io.stale(query)
      else 1 <= n <= COMMIT_BUF_SECTORS && start + n <= bs.total && forall x: nat :: start <= x < start + n ==> bs.Has(x)
    }
  }

  ghost predicate AllTold(runs: seq<Run>, bs: Image, io: Answers)
    reads bs
  {
    forall k :: 0 <= k < |runs| ==> runs[k].Told(bs, io)
  }

  /** All the runs were copied. */
  ghost predicate AllCopied(runs: seq<Run>, bs: Image, backing: Image, io: Answers) {
    forall k :: 0 <= k < |runs| ==> runs[k].Fits(bs, backing) && !io.readFails(k) && !io.writeFails(k)
  }

  /** The last of the runs was not copied, all before it were, and so was all that the image holds before it. */
  ghost predicate StoppedAt(runs: seq<Run>, bs: Image, backing: Image, io: Answers)
    reads bs, backing
  {
    var k := |runs| - 1;
    && runs != [] && AllCopied(runs[..k], bs, backing, io) && Committed(bs, backing, runs[k].start)
    && !(runs[k].Fits(bs, backing) && !io.readFails(k) && !io.writeFails(k))
  }

  /** None of the runs comes from a query that failed. */
  ghost predicate AllKnown(runs: seq<Run>, bs: Image, io: Answers) {
    bs.queries ==> forall k :: 0 <= k < |runs| ==> !io.queryFails(runs[k].query)
  }

  /** `bdrv_read` of the top of a chain: refused outside it, and otherwise what the chain reads. */
  method Read(images: seq<Image>, sector: nat, nb: nat, fails: bool) returns (ok: bool, buf: seq<Sector>)
    requires images != []
    ensures ok <==> sector + nb <= images[0].total && !fails
    ensures ok ==> |buf| == nb && forall x: nat :: sector <= x < sector + nb ==> buf[x - sector] == ReadChain(images, x)
  {
    if sector + nb > images[0].total || fails {
      return false, [];
    }
    return true, seq(nb, i requires 0 <= i reads images => ReadChain(images, sector + i));
  }

  /** The copy loop of `bdrv_commit`, then `make_empty` when the driver has it.  Whatever fails and wherever it
      stops, the guest reads what it read before.  It succeeds if and only if no read, write or `make_empty` fails
      and every run fits; when no query fails, this is when all that the top holds lies inside the backing file.
      A query that fails counts as allocated, with a run length that nobody set; `overrun` tells that it was
      beyond the buffer, and the loop is left there.  From query `last` on, failing ones leave a length other
      than 0, or else the loop need not end. */
  method Commit(bs: Image, backing: Image, canEmpty: bool, below: seq<Image>, io: Answers, ghost last: nat)
    returns (ok: bool, overrun: bool, ghost runs: seq<Run>)
    requires Linked(bs, [bs, backing] + below) && (canEmpty ==> bs.queries)
    requires forall q: nat :: q >= last && io.queryFails(q) ==> io.stale(q) != 0
    modifies bs, backing
    ensures forall x: nat :: ReadChain([bs, backing] + below, x) == old(ReadChain([bs, backing] + below, x))
    ensures old(AllTold(runs, bs, io))
    ensures ok <==> AllCopied(runs, bs, backing, io) && (canEmpty ==> !io.emptyFails)
    ensures !AllCopied(runs, bs, backing, io) ==> StoppedAt(runs, bs, backing, io)
    ensures AllKnown(runs, bs, io) ==>
              (AllCopied(runs, bs, backing, io) <==>
               && (forall x: nat :: old(bs.Has(x)) ==> x < backing.total)
               && (forall k :: 0 <= k < |runs| ==> !io.readFails(k) && !io.writeFails(k)))
    ensures ok ==> forall x: nat :: old(bs.Has(x)) ==> backing.Has(x) && backing.Content(x) == old(bs.Content(x))
    ensures ok ==> forall x: nat :: x < bs.total ==>
                     ReadChain([backing] + below, x) == old(ReadChain([bs, backing] + below, x))
    ensures ok && canEmpty ==> bs.data == map[]
    ensures overrun <==> exists k :: 0 <= k < |runs| && runs[k].n > COMMIT_BUF_SECTORS
  {
    ghost var chain := [bs, backing] + below;
    Separate(bs, backing, below);
    assert chain[1..] == [backing] + below && chain[1..][1..] == below;
    ok, overrun, runs := CopyDown(bs, backing, below, io, last);
    KnownFit(runs, bs, backing, io);
    ghost var copied := ok;
    label emptied:
    if ok && canEmpty {
      ok := bs.MakeEmpty(io.emptyFails);
    }
    forall x: nat
      ensures ReadChain(chain, x) == old(ReadChain(chain, x))
      ensures ok && x < bs.total ==> ReadChain(chain[1..], x) == old(ReadChain(chain, x))
      ensures copied && old(bs.Has(x)) ==> backing.Has(x) && backing.Content(x) == old(bs.Content(x))
    {
      assert ReadChain(chain[1..], x) == old@emptied(ReadChain(chain[1..], x));
      assert copied && old(bs.Has(x)) ==> backing.Has(x) && backing.Content(x) == old(bs.Content(x));
    }
  }

  /** Without failed queries, the runs fit when what the top holds lies inside the backing file. */
  lemma KnownFit(runs: seq<Run>, bs: Image, backing: Image, io: Answers)
    requires AllTold(runs, bs, io)
    ensures AllKnown(runs, bs, io) && (forall x: nat :: bs.Has(x) ==> x < backing.total) ==>
              forall k :: 0 <= k < |runs| ==> runs[k].Fits(bs, backing)
  {
    forall k | 0 <= k < |runs| && AllKnown(runs, bs, io) && (forall x: nat :: bs.Has(x) ==> x < backing.total)
      ensures runs[k].Fits(bs, backing)
    {
      var r := runs[k];
      assert r.Told(bs, io);
      var x: nat := r.start + r.n - 1;
      assert bs.Has(x);
    }
  }

  lemma Separate(bs: Image, backing: Image, below: seq<Image>)
    requires Linked(bs, [bs, backing] + below)
    ensures bs.backing == backing && bs != backing && bs !in below && backing !in below
  {
    var chain := [bs, backing] + below;
    assert chain[1..] == [backing] + below;
    LinkedDistinct(bs, chain, 1);
    forall i | 0 <= i < |below| ensures below[i] != bs && below[i] != backing {
      LinkedDistinct(bs, chain, i + 2);
      LinkedDistinct(backing, chain[1..], i + 1);
    }
  }

  method CopyDown(bs: Image, backing: Image, below: seq<Image>, io: Answers, ghost last: nat)
    returns (ok: bool, overrun: bool, ghost runs: seq<Run>)
    requires bs != backing && bs !in below && backing !in below
    requires forall q: nat :: q >= last && io.queryFails(q) ==> io.stale(q) != 0
    modifies backing
    ensures forall x: nat :: ReadChain([bs, backing] + below, x) == old(ReadChain([bs, backing] + below, x))
    ensures AllKnown(runs, bs, io) ==> forall x: nat :: !bs.Has(x) ==>
                backing.Has(x) == old(backing.Has(x)) && backing.Content(x) == old(backing.Content(x))
    ensures AllTold(runs, bs, io) && (ok <==> AllCopied(runs, bs, backing, io))
    ensures if ok then Committed(bs, backing, bs.total) else StoppedAt(runs, bs, backing, io)
    ensures overrun <==> exists k :: 0 <= k < |runs| && runs[k].n > COMMIT_BUF_SECTORS
  {
    hide ReadChain;
    var chain := [bs, backing] + below;
    var sector: nat, q: nat, copied: nat := 0, 0, 0;
    ok, overrun, runs := false, false, [];
    while sector < bs.total
      invariant forall x: nat :: ReadChain(chain, x) == old(ReadChain(chain, x))
      invariant AllKnown(runs, bs, io) ==> forall x: nat :: !bs.Has(x) ==>
                  backing.Has(x) == old(backing.Has(x)) && backing.Content(x) == old(backing.Content(x))
      invariant copied == |runs| && AllTold(runs, bs, io) && AllCopied(runs, bs, backing, io)
      invariant Committed(bs, backing, sector)
      decreases if q < last then last - q else 0, bs.total - sector
    {
      var alloc, n := bs.IsAllocated(sector, COMMIT_BUF_SECTORS, io.queryFails(q), io.stale(q));
      if alloc != 0 {
        ghost var run := Run(sector, n, q);
        assert run.Told(bs, io);
        ghost var before := runs;
        runs := runs + [run];
        assert runs[copied] == run && forall k :: 0 <= k < |before| ==> runs[k] == before[k];
        assert runs[..copied] == before;
        if n > COMMIT_BUF_SECTORS {
          overrun := true;
          return;
        }
        if n < 0 {
          return;
        }
        var done := CopyRun(bs, backing, below, sector, n, io.readFails(copied), io.writeFails(copied));
        if !done {
          return;
        }
        copied := copied + 1;
      }
      q := q + 1;
      sector := sector + n;
    }
    ok := true;
  }

  /** One round: a run of sectors is read from the top and written to the backing file.  Writing there what the
      chain reads changes nothing that the chain reads. */
  method CopyRun(bs: Image, backing: Image, below: seq<Image>, sector: nat, n: nat, readFails: bool, writeFails: bool)
    returns (ok: bool)
    requires bs != backing && bs !in below && backing !in below && Committed(bs, backing, sector)
    modifies backing
    ensures forall x: nat :: ReadChain([bs, backing] + below, x) == old(ReadChain([bs, backing] + below, x))
    ensures forall x: nat :: !Within(x, sector, n) ==>
                backing.Has(x) == old(backing.Has(x)) && backing.Content(x) == old(backing.Content(x))
    ensures ok <==> sector + n <= bs.total && sector + n <= backing.total && !readFails && !writeFails
    ensures if ok then Committed(bs, backing, sector + n) else Committed(bs, backing, sector)
  {
    var read, buf := Read([bs, backing] + below, sector, n, readFails);
    if !read {
      return false;
    }
    assert forall x: nat :: Within(x, sector, n) ==> buf[x - sector] == ReadChain([bs, backing] + below, x);
    ok := backing.Write(sector, buf, writeFails);
    forall x: nat ensures ReadChain([bs, backing] + below, x) == old(ReadChain([bs, backing] + below, x)) {
      var chain := [bs, backing] + below;
      assert chain[1..] == [backing] + below && chain[1..][1..] == below;
      assert ReadChain(chain[1..][1..], x) == old(ReadChain(chain[1..][1..], x));
      assert Within(x, sector, n) ==> buf[x - sector] == old(ReadChain(chain, x));
    }
    forall x: nat | x < sector && bs.Has(x) ensures backing.Has(x) && backing.Content(x) == bs.Content(x) {
      assert old(backing.Has(x)) && old(backing.Content(x)) == bs.Content(x);
    }
    if ok {
      forall x: nat | x < sector + n && bs.Has(x) ensures backing.Has(x) && backing.Content(x) == bs.Content(x) {
        assert x >= sector ==> Within(x, sector, n) && ReadChain([bs, backing] + below, x) == bs.Content(x);
      }
    }
  }
}
