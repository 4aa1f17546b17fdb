/** Block migration of whole devices, with a guest that writes all the while (src/block-migration.c:187-260,
    365-477, 619-732; dirty marking at src/block.c:2020-2030).

    A guest write reaches its sectors one by one and marks its chunks dirty afterwards; a read of the sender
    samples its sectors one by one and is put on the list of read blocks when it completes. */
module BlockMigration {
  import DirtyBitmap
  import opened Options

  const CHUNK := DirtyBitmap.CHUNK  // BDRV_SECTORS_PER_DIRTY_CHUNK

  type Sector = seq<bv8>

  /** A sector of a device. */
  datatype Place = Place(dev: nat, sector: nat)

  datatype Chunk = Chunk(dev: nat, no: nat)

  function ChunkOf(p: Place): Chunk {
    Chunk(p.dev, p.sector / CHUNK)
  }

  /** What was read of a chunk; while the read is in flight, the sectors it has sampled so far. */
  datatype Block = Block(chunk: Chunk, buf: map<nat, Sector>)

  /** A guest write that has not marked its chunks yet. */
  datatype Write = Write(dev: nat, sector: nat, data: seq<Sector>) {
    predicate Covers(p: Place) {
      p.dev == dev && sector <= p.sector < sector + |data|
    }
  }

  predicate WriteFits(total: seq<nat>, w: Write) {
    w.dev < |total| && w.sector + |w.data| <= total[w.dev]
  }

  predicate ChunkFits(total: seq<nat>, c: Chunk) {
    c.dev < |total| && c.no * CHUNK < total[c.dev]
  }

  // ----- the last of a chunk -----

  /** The last block of chunk `c`. */
  function Last(bs: seq<Block>, c: Chunk): Option<Block> {
    if bs == [] then None
    else if bs[|bs| - 1].chunk == c then Some(bs[|bs| - 1])
    else Last(bs[..|bs| - 1], c)
  }

  lemma {:induction false} LastJoin(a: seq<Block>, b: seq<Block>, c: Chunk)
    ensures Last(a + b, c) == if Last(b, c).Some? then Last(b, c) else Last(a, c)
  {
    if b == [] {
      assert a + b == a;
    } else {
      assert (a + b)[..|a + b| - 1] == a + b[..|b| - 1];
      LastJoin(a, b[..|b| - 1], c);
    }
  }

  lemma {:induction false} LastIsOne(bs: seq<Block>, c: Chunk)
    ensures Last(bs, c).Some? ==> Last(bs, c).value in bs && Last(bs, c).value.chunk == c
    ensures Last(bs, c).None? ==> forall i :: 0 <= i < |bs| ==> bs[i].chunk != c
  {
    if bs != [] {
      LastIsOne(bs[..|bs| - 1], c);
    }
  }

  lemma LastAppended(bs: seq<Block>, b: Block, c: Chunk)
    ensures Last(bs + [b], c) == if b.chunk == c then Some(b) else Last(bs, c)
  {
    assert (bs + [b])[..|bs|] == bs;
  }

  lemma CursorChunk(cursor: nat, total: nat, sector: nat)
    requires cursor < total && cursor % CHUNK == 0
    ensures cursor <= sector < AfterChunk(cursor, total) ==> sector / CHUNK == cursor / CHUNK
  {
  }

  /** What sector `p` holds once `bs` have been received, over `base`. */
  function Received(bs: seq<Block>, p: Place, base: Place -> Sector): Sector {
    match Last(bs, ChunkOf(p))
    case None => base(p)
    case Some(b) => if p.sector in b.buf then b.buf[p.sector] else base(p)
  }

  // ----- the stream -----

  const DEVICE_BLOCK := 1
  const EOS := 2
  const PROGRESS := 4
  const SECTOR_SIZE := 512
  const EINVAL := 22
  const EIO := 5

  /** What the stream carries: a header of sector number, or percentage, and flags; after a device block also
      the device and the data. */
  datatype Item = Item(header: nat, dev: nat, buf: map<nat, Sector>)

  predicate Flag(header: nat, flag: nat)
    requires flag > 0
  {
    header % SECTOR_SIZE / flag % 2 == 1
  }

  /** `blk_send` */
  function BlockItem(b: Block): Item {
    Item(b.chunk.no * CHUNK * SECTOR_SIZE + DEVICE_BLOCK, b.chunk.dev, b.buf)
  }

  function ProgressItem(percent: nat): Item {
    Item(percent * SECTOR_SIZE + PROGRESS, 0, map[])
  }

  function EosItem(): Item {
    Item(EOS, 0, map[])
  }

  /** The header of a block says which chunk it is; the other headers are not taken for a block's. */
  lemma HeadersAreRead(b: Block, percent: nat)
    ensures Flag(BlockItem(b).header, DEVICE_BLOCK) && !Flag(BlockItem(b).header, EOS)
    ensures BlockItem(b).header / SECTOR_SIZE == b.chunk.no * CHUNK
    ensures !Flag(ProgressItem(percent).header, DEVICE_BLOCK) && !Flag(ProgressItem(percent).header, EOS)
    ensures Flag(ProgressItem(percent).header, PROGRESS)
    ensures !Flag(EosItem().header, DEVICE_BLOCK) && !Flag(EosItem().header, PROGRESS) && Flag(EosItem().header, EOS)
  {
  }

  /** The item for one of the blocks, or one without data. */
  ghost predicate IsItem(total: seq<nat>, item: Item) {
    || (exists b: Block :: ChunkFits(total, b.chunk) && FullBlock(total, b) && item == BlockItem(b))
    || (exists percent: nat :: item == ProgressItem(percent))
    || item == EosItem()
  }

  ghost predicate FullBlock(total: seq<nat>, b: Block)
    requires ChunkFits(total, b.chunk)
  {
    forall x: nat :: x < total[b.chunk.dev] && x / CHUNK == b.chunk.no ==> x in b.buf
  }

  /** The blocks among the items. */
  function Blocks(items: seq<Item>): seq<Block> {
    if items == [] then []
    else
      var i := items[|items| - 1];
      Blocks(items[..|items| - 1]) + if Flag(i.header, DEVICE_BLOCK) then [BlockIn(i)] else []
  }

  function BlockIn(i: Item): Block {
    Block(Chunk(i.dev, i.header / SECTOR_SIZE / CHUNK), i.buf)
  }

  lemma BlocksAppended(items: seq<Item>, i: Item)
    ensures Blocks(items + [i]) == Blocks(items) + if Flag(i.header, DEVICE_BLOCK) then [BlockIn(i)] else []
  {
    assert (items + [i])[..|items|] == items;
  }

  /** Items have been added to the stream. */
  ghost predicate Extends(total: seq<nat>, a: seq<Item>, b: seq<Item>) {
    a <= b && forall i :: |a| <= i < |b| ==> IsItem(total, b[i])
  }

  ghost predicate AllItems(total: seq<nat>, items: seq<Item>) {
    forall i :: 0 <= i < |items| ==> IsItem(total, items[i])
  }

  // ----- the sender and the guest -----

  /** `flight`: reads in the order in which they were issued.  `queue`: blk_list.  `busy`: aio_bitmap. */
  datatype State = State(total: seq<nat>, cursor: seq<nat>, src: Place -> Sector, writes: map<nat, Write>,
                         dirty: set<Chunk>, busy: set<Chunk>, flight: seq<Block>, queue: seq<Block>, stream: seq<Item>)
  {
    predicate InRange(p: Place) {
      p.dev < |total| && p.sector < total[p.dev]
    }

    /** The places of a chunk. */
    predicate Holds(c: Chunk, sector: nat) {
      InRange(Place(c.dev, sector)) && sector / CHUNK == c.no
    }
  }

  datatype Step =
    | Issue(id: nat, w: Write)
    | Land(id: nat, sector: nat)
    | Mark(id: nat)
    | BulkRead(dev: nat)
    | DirtyRead(c: Chunk)
    | Sample(k: nat, sector: nat)
    | Complete(k: nat)
    | Flush
    | Progress(percent: nat)
    | EndSection

  ghost predicate BulkDone(s: State) {
    |s.cursor| == |s.total| && forall d :: 0 <= d < |s.total| ==> s.cursor[d] == s.total[d]
  }

  /** What can happen, if reads may complete in any order. */
  ghost predicate Possible(s: State, t: Step) {
    match t
    case Issue(id, w) => id !in s.writes && WriteFits(s.total, w)
    case Land(id, sector) => id in s.writes && s.writes[id].Covers(Place(s.writes[id].dev, sector))
    case Mark(id) => id in s.writes
    case BulkRead(d) => d < |s.cursor| == |s.total| && s.cursor[d] < s.total[d]
    case DirtyRead(c) => BulkDone(s) && c in s.dirty && c !in s.busy
    case Sample(k, sector) => k < |s.flight| && s.Holds(s.flight[k].chunk, sector) && sector !in s.flight[k].buf
    case Complete(k) =>
      k < |s.flight| && forall x: nat :: s.Holds(s.flight[k].chunk, x) ==> x in s.flight[k].buf
    case Flush => s.queue != []
    case Progress(_) => true
    case EndSection => true
  }

  /** What happens: reads of one chunk complete in the order in which they were issued. */
  ghost predicate Enabled(s: State, t: Step) {
    && Possible(s, t)
    && (t.Complete? ==> forall j :: 0 <= j < t.k ==> s.flight[j].chunk != s.flight[t.k].chunk)
  }

  /** The chunk at the bulk cursor, and where the cursor goes. */
  function AfterChunk(cursor: nat, total: nat): nat {
    if total - cursor < CHUNK then total else cursor + CHUNK
  }

  /** The chunks that a write marks. */
  function Marked(w: Write): set<Chunk> {
    set c | c in DirtyBitmap.Touched(w.sector, |w.data|) :: Chunk(w.dev, c)
  }

  ghost function Apply(s: State, t: Step): State
    requires Possible(s, t)
  {
    match t
    case Issue(id, w) => s.(writes := s.writes[id := w])
    case Land(id, sector) =>
      var w := s.writes[id];
      s.(src := p => if p == Place(w.dev, sector) then w.data[sector - w.sector] else s.src(p))
    case Mark(id) =>
      var w := s.writes[id];
      s.(dirty := s.dirty + Marked(w), writes := s.writes - {id})
    case BulkRead(d) =>
      var c := Chunk(d, s.cursor[d] / CHUNK);
      s.(flight := s.flight + [Block(c, map[])], dirty := s.dirty - {c},
         cursor := s.cursor[d := AfterChunk(s.cursor[d], s.total[d])])
    case DirtyRead(c) =>
      s.(flight := s.flight + [Block(c, map[])], busy := s.busy + {c}, dirty := s.dirty - {c})
    case Sample(k, sector) =>
      var b := s.flight[k];
      s.(flight := s.flight[k := b.(buf := b.buf[sector := s.src(Place(b.chunk.dev, sector))])])
    case Complete(k) =>
      var b := s.flight[k];
      s.(flight := s.flight[..k] + s.flight[k + 1..], queue := s.queue + [b], busy := s.busy - {b.chunk})
    case Flush => s.(queue := s.queue[1..], stream := s.stream + [BlockItem(s.queue[0])])
    case Progress(percent) => s.(stream := s.stream + [ProgressItem(percent)])
    case EndSection => s.(stream := s.stream + [EosItem()])
  }

  // ----- what every step keeps -----

  ghost predicate Cursors(s: State) {
    && |s.cursor| == |s.total|
    && forall d :: 0 <= d < |s.total| ==> s.cursor[d] <= s.total[d] && (s.cursor[d] % CHUNK == 0 || s.cursor[d] == s.total[d])
  }

  /** Blocks of chunks that are there; those that were read hold all sectors of their chunk. */
  ghost predicate Good(s: State) {
    && (forall i :: 0 <= i < |s.flight| ==> ChunkFits(s.total, s.flight[i].chunk))
    && (forall i :: 0 <= i < |s.queue| ==> ChunkFits(s.total, s.queue[i].chunk) && FullBlock(s.total, s.queue[i]))
    && AllItems(s.total, s.stream)
  }

  /** What has been sent and what is going to be. */
  function Line(s: State): seq<Block> {
    Blocks(s.stream) + s.queue
  }

  ghost predicate Covered(s: State, p: Place) {
    exists id :: id in s.writes && s.writes[id].Covers(p)
  }

  /** The newest data of the chunk that is under way, or else received, is what the source holds. */
  ghost predicate Current(s: State, p: Place, base: Place -> Sector) {
    match Last(s.flight, ChunkOf(p))
    case Some(b) => p.sector in b.buf ==> b.buf[p.sector] == s.src(p)
    case None => Received(Line(s), p, base) == s.src(p)
  }

  ghost predicate Behind(s: State, p: Place) {
    s.InRange(p) && |s.cursor| == |s.total| && p.sector < s.cursor[p.dev]
  }

  /** A sector behind the bulk cursor is dirty, in an unfinished guest write, or current. */
  ghost predicate SafeAt(s: State, p: Place, base: Place -> Sector) {
    Behind(s, p) ==> ChunkOf(p) in s.dirty || Covered(s, p) || Current(s, p, base)
  }

  /** Writes and dirty chunks lie inside their devices. */
  ghost predicate Fits(s: State) {
    && (forall d :: 0 <= d < |s.total| ==> s.total[d] > 0)
    && (forall id :: id in s.writes ==> WriteFits(s.total, s.writes[id]))
    && (forall c :: c in s.dirty ==> ChunkFits(s.total, c))
  }

  ghost predicate Inv(s: State, base: Place -> Sector) {
    && Fits(s) && Cursors(s) && Good(s)
    && forall p :: SafeAt(s, p, base)
  }

  lemma MarkFits(total: seq<nat>, w: Write, c: Chunk)
    requires WriteFits(total, w) && total[w.dev] > 0 && c in Marked(w)
    ensures ChunkFits(total, c)
  {
    if |w.data| == 0 {
      DirtyBitmap.TouchedByNothing(w.sector);
    }
  }

  lemma KeepsFits(s: State, t: Step)
    requires Enabled(s, t) && Fits(s)
    ensures Fits(Apply(s, t))
  {
    hide ChunkFits;
    if t.Mark? {
      forall c | c in Marked(s.writes[t.id]) ensures ChunkFits(s.total, c) {
        MarkFits(s.total, s.writes[t.id], c);
      }
    }
  }

  lemma KeepsCursors(s: State, t: Step)
    requires Possible(s, t) && Cursors(s)
    ensures Cursors(Apply(s, t)) && Apply(s, t).total == s.total
  {
  }

  lemma KeepsGood(s: State, t: Step)
    requires Possible(s, t) && Good(s) && Fits(s) && Cursors(s)
    ensures Good(Apply(s, t))
  {
    hide FullBlock, IsItem;
    var s' := Apply(s, t);
    match t
    case BulkRead(d) => CursorFits(s.cursor[d], s.total[d]);
    case Complete(k) => assert FullBlock(s.total, s.flight[k]) by { Sampled(s, k); }
    case Flush =>
      assert FullBlock(s.total, s.queue[0]) && s.queue[0] in s.queue;
      BlockIsItem(s.total, s.queue[0]);
      assert forall i :: 0 <= i < |s.queue[1..]| ==> s.queue[1..][i] == s.queue[i + 1];
    case Progress(percent) => OtherIsItem(s.total, percent);
    case EndSection => OtherIsItem(s.total, 0);
    case _ =>
  }

  lemma CursorFits(cursor: nat, total: nat)
    requires cursor < total
    ensures cursor / CHUNK * CHUNK < total
  {
  }

  lemma Sampled(s: State, k: nat)
    requires Possible(s, Complete(k)) && ChunkFits(s.total, s.flight[k].chunk)
    ensures FullBlock(s.total, s.flight[k])
  {
    var b := s.flight[k];
    forall x: nat | x < s.total[b.chunk.dev] && x / CHUNK == b.chunk.no ensures x in b.buf {
      assert s.Holds(b.chunk, x);
    }
  }

  lemma BlockIsItem(total: seq<nat>, b: Block)
    requires ChunkFits(total, b.chunk) && FullBlock(total, b)
    ensures IsItem(total, BlockItem(b))
  {
  }

  lemma OtherIsItem(total: seq<nat>, percent: nat)
    ensures IsItem(total, ProgressItem(percent)) && IsItem(total, EosItem())
  {
  }

  lemma LandIsSafe(s: State, t: Step, p: Place, base: Place -> Sector)
    requires Enabled(s, t) && (t.Land? || t.Issue?) && SafeAt(s, p, base)
    ensures SafeAt(Apply(s, t), p, base)
  {
    var s' := Apply(s, t);
    if t.Land? {
      assert s'.writes[t.id].Covers(p) || s'.src(p) == s.src(p);
    } else if Covered(s, p) {
      var id :| id in s.writes && s.writes[id].Covers(p);
      assert s'.writes[id].Covers(p);
    }
  }

  lemma MarkIsSafe(s: State, t: Step, p: Place, base: Place -> Sector)
    requires Enabled(s, t) && t.Mark? && SafeAt(s, p, base)
    ensures SafeAt(Apply(s, t), p, base)
  {
    var s' := Apply(s, t);
    if Covered(s, p) {
      var id :| id in s.writes && s.writes[id].Covers(p);
      if id == t.id {
        var w := s.writes[id];
        DirtyBitmap.TouchedExactly(w.sector, |w.data|, p.sector / CHUNK);
        assert ChunkOf(p) in Marked(w);
      } else {
        assert s'.writes[id].Covers(p);
      }
    }
  }

  /** A read that has just been issued makes its chunk safe, and leaves the others alone. */
  lemma ReadIsSafe(s: State, t: Step, p: Place, base: Place -> Sector)
    requires Enabled(s, t) && (t.BulkRead? || t.DirtyRead?) && Cursors(s) && SafeAt(s, p, base)
    ensures SafeAt(Apply(s, t), p, base)
  {
    hide Last, Received, AfterChunk;
    var s' := Apply(s, t);
    var c := if t.BulkRead? then Chunk(t.dev, s.cursor[t.dev] / CHUNK) else t.c;
    LastAppended(s.flight, Block(c, map[]), ChunkOf(p));
    if t.BulkRead? {
      CursorChunk(s.cursor[t.dev], s.total[t.dev], p.sector);
    }
  }

  lemma SampleIsSafe(s: State, t: Step, p: Place, base: Place -> Sector)
    requires Enabled(s, t) && t.Sample? && SafeAt(s, p, base)
    ensures SafeAt(Apply(s, t), p, base)
  {
    hide Received;
    var b := s.flight[t.k];
    var b' := b.(buf := b.buf[t.sector := s.src(Place(b.chunk.dev, t.sector))]);
    LastUpdated(s.flight, t.k, b', ChunkOf(p));
  }

  lemma {:induction false} LastUpdated(bs: seq<Block>, k: nat, b: Block, c: Chunk)
    requires k < |bs| && b.chunk == bs[k].chunk
    ensures Last(bs[k := b], c) == Last(bs, c) || (Last(bs, c) == Some(bs[k]) && Last(bs[k := b], c) == Some(b) && b.chunk == c)
  {
    var n := |bs| - 1;
    if k == n {
      assert bs[k := b][..n] == bs[..n];
    } else if bs[n].chunk != c {
      assert bs[k := b][..n] == bs[..n][k := b];
      LastUpdated(bs[..n], k, b, c);
    }
  }

  /** A read that completes is the oldest of its chunk: what is newest stays newest. */
  lemma CompleteIsSafe(s: State, t: Step, p: Place, base: Place -> Sector)
    requires Enabled(s, t) && t.Complete? && SafeAt(s, p, base)
    ensures SafeAt(Apply(s, t), p, base)
  {
    hide Last, Blocks;
    var s' := Apply(s, t);
    var b, c := s.flight[t.k], ChunkOf(p);
    LastRemoved(s.flight, t.k, c);
    assert Line(s') == Line(s) + [b];
    LastAppended(Line(s), b, c);
    if s.InRange(p) && b.chunk == c {
      assert s.Holds(b.chunk, p.sector);
    }
  }

  lemma LastRemoved(bs: seq<Block>, k: nat, c: Chunk)
    requires k < |bs| && forall j :: 0 <= j < k ==> bs[j].chunk != bs[k].chunk
    ensures var rest := bs[..k] + bs[k + 1..];
            Last(rest, c) == Last(bs, c) || (Last(rest, c) == None && Last(bs, c) == Some(bs[k]) && bs[k].chunk == c)
    ensures bs[k].chunk == c ==> Last(bs, c).Some?
  {
    var a, b, d := bs[..k], bs[k], bs[k + 1..];
    assert bs == (a + [b]) + d;
    LastJoin(a + [b], d, c);
    LastJoin(a, d, c);
    LastAppended(a, b, c);
    LastIsOne(a, c);
    LastIsOne(bs, c);
  }

  lemma FlushIsSafe(s: State, t: Step, p: Place, base: Place -> Sector)
    requires Enabled(s, t) && t.Flush? && SafeAt(s, p, base)
    ensures SafeAt(Apply(s, t), p, base)
  {
    hide Last, Received, Blocks;
    FlushKeepsLine(s);
  }

  /** Flushing moves a block along, from the list to the stream. */
  lemma FlushKeepsLine(s: State)
    requires s.queue != []
    ensures Line(Apply(s, Flush)) == Line(s)
  {
    hide Blocks;
    var b := s.queue[0];
    HeadersAreRead(b, 0);
    BlocksAppended(s.stream, BlockItem(b));
    assert BlockIn(BlockItem(b)) == b;
    assert Blocks(s.stream) + [b] + s.queue[1..] == Blocks(s.stream) + s.queue;
  }

  lemma OtherIsSafe(s: State, t: Step, p: Place, base: Place -> Sector)
    requires Enabled(s, t) && (t.Progress? || t.EndSection?) && SafeAt(s, p, base)
    ensures SafeAt(Apply(s, t), p, base)
  {
    hide Last, Received, Blocks;
    OtherKeepsLine(s, t);
  }

  lemma OtherKeepsLine(s: State, t: Step)
    requires t.Progress? || t.EndSection?
    ensures Line(Apply(s, t)) == Line(s)
  {
    hide Blocks;
    var i := if t.Progress? then ProgressItem(t.percent) else EosItem();
    HeadersAreRead(Block(Chunk(0, 0), map[]), if t.Progress? then t.percent else 0);
    BlocksAppended(s.stream, i);
    assert Blocks(s.stream) + [] == Blocks(s.stream);
  }

  lemma StepKeepsInv(s: State, t: Step, base: Place -> Sector)
    requires Inv(s, base) && Enabled(s, t)
    ensures Inv(Apply(s, t), base) && Apply(s, t).total == s.total
  {
    hide Fits, Cursors, Good, SafeAt, Apply, Possible;
    KeepsFits(s, t);
    KeepsCursors(s, t);
    KeepsGood(s, t);
    forall p ensures SafeAt(Apply(s, t), p, base) {
      assert SafeAt(s, p, base);
      match t
      case Issue(_, _) => LandIsSafe(s, t, p, base);
      case Land(_, _) => LandIsSafe(s, t, p, base);
      case Mark(_) => MarkIsSafe(s, t, p, base);
      case BulkRead(_) => ReadIsSafe(s, t, p, base);
      case DirtyRead(_) => ReadIsSafe(s, t, p, base);
      case Sample(_, _) => SampleIsSafe(s, t, p, base);
      case Complete(_) => CompleteIsSafe(s, t, p, base);
      case Flush => FlushIsSafe(s, t, p, base);
      case Progress(_) => OtherIsSafe(s, t, p, base);
      case EndSection => OtherIsSafe(s, t, p, base);
    }
  }

  // ----- whole runs -----

  ghost predicate IsRun(s: State, ts: seq<Step>)
    decreases |ts|
  {
    ts == [] || (Enabled(s, ts[0]) && IsRun(Apply(s, ts[0]), ts[1..]))
  }

  ghost function Outcome(s: State, ts: seq<Step>): State
    requires IsRun(s, ts)
    decreases |ts|
  {
    if ts == [] then s else Outcome(Apply(s, ts[0]), ts[1..])
  }

  lemma {:induction false} RunKeepsInv(s: State, ts: seq<Step>, base: Place -> Sector)
    requires Inv(s, base) && IsRun(s, ts)
    ensures Inv(Outcome(s, ts), base) && Outcome(s, ts).total == s.total
    decreases |ts|
  {
    hide Inv, Apply, Possible;
    if ts != [] {
      StepKeepsInv(s, ts[0], base);
      RunKeepsInv(Apply(s, ts[0]), ts[1..], base);
    }
  }

  /** `block_save_setup`: nothing read, nothing dirty, the cursors at the start. */
  ghost predicate Start(s: State) {
    && s.dirty == {} && s.busy == {} && s.flight == [] && s.queue == [] && s.stream == [EosItem()]
    && |s.cursor| == |s.total| && (forall d :: 0 <= d < |s.cursor| ==> s.cursor[d] == 0)
    && (forall d :: 0 <= d < |s.total| ==> s.total[d] > 0)
    && (forall id :: id in s.writes ==> WriteFits(s.total, s.writes[id]))
  }

  lemma StartIsSound(s: State, base: Place -> Sector)
    requires Start(s)
    ensures Inv(s, base)
  {
    OtherIsItem(s.total, 0);
  }

  /** The guest is stopped, all reads are complete and all blocks sent. */
  ghost predicate Quiet(s: State) {
    s.writes == map[] && s.flight == [] && s.queue == [] && BulkDone(s)
  }

  /** What the last phase starts from: a sector is in a dirty chunk, or the destination has it. */
  lemma QuietIsDirtyOrEqual(s: State, ts: seq<Step>, base: Place -> Sector, p: Place)
    requires Start(s) && IsRun(s, ts) && Quiet(Outcome(s, ts)) && s.InRange(p)
    ensures var s' := Outcome(s, ts);
            Fits(s') && s'.InRange(p) && (ChunkOf(p) in s'.dirty || Received(Blocks(s'.stream), p, base) == s'.src(p))
  {
    hide Received;
    StartIsSound(s, base);
    RunKeepsInv(s, ts, base);
    var s' := Outcome(s, ts);
    assert SafeAt(s', p, base);
    assert Line(s') == Blocks(s'.stream);
  }

  /** Blocks that the flush left on the list are lost.  A clean sector is then right exactly when no block of
      its chunk was left, or what was left had nothing new. */
  lemma LeftoverIsLost(s: State, base: Place -> Sector, p: Place)
    requires Inv(s, base) && s.writes == map[] && s.flight == [] && BulkDone(s) && s.InRange(p) && ChunkOf(p) !in s.dirty
    ensures Last(s.queue, ChunkOf(p)).Some? ==> p.sector in Last(s.queue, ChunkOf(p)).value.buf
    ensures Received(Blocks(s.stream), p, base) == s.src(p) <==>
            match Last(s.queue, ChunkOf(p))
            case None => true
            case Some(b) => b.buf[p.sector] == Received(Blocks(s.stream), p, base)
  {
    hide Blocks;
    assert SafeAt(s, p, base);
    LastJoin(Blocks(s.stream), s.queue, ChunkOf(p));
    LastIsOne(s.queue, ChunkOf(p));
  }

  // ----- why the order of completion matters -----

  /** A run in which reads complete in any order leads from `s` to `end`. */
  ghost predicate Reaches(s: State, ts: seq<Step>, end: State)
    decreases |ts|
  {
    if ts == [] then s == end else Possible(s, ts[0]) && Reaches(Apply(s, ts[0]), ts[1..], end)
  }

  lemma {:induction false} ReachesMore(s: State, ts: seq<Step>, mid: State, t: Step)
    requires Reaches(s, ts, mid) && Possible(mid, t)
    ensures Reaches(s, ts + [t], Apply(mid, t))
    decreases |ts|
  {
    if ts == [] {
      assert (ts + [t])[1..] == [];
    } else {
      assert (ts + [t])[1..] == ts[1..] + [t];
      ReachesMore(Apply(s, ts[0]), ts[1..], mid, t);
    }
  }

  /** One more step. */
  lemma Then(s: State, ts: seq<Step>, mid: State, t: Step) returns (more: seq<Step>, next: State)
    requires Reaches(s, ts, mid) && Possible(mid, t)
    ensures Reaches(s, more, next) && next == Apply(mid, t)
  {
    ReachesMore(s, ts, mid, t);
    more, next := ts + [t], Apply(mid, t);
  }

  /** The data of `p` that is under way, or received, is `v`, and nothing is going to replace it. */
  ghost predicate Settled(s: State, p: Place, v: Sector, base: Place -> Sector) {
    && Cursors(s) && Behind(s, p) && ChunkOf(p) !in s.dirty
    && (forall id :: id in s.writes ==> ChunkOf(p) !in Marked(s.writes[id]))
    && (match Last(s.flight, ChunkOf(p))
        case Some(b) => p.sector in b.buf && b.buf[p.sector] == v && Alone(s.flight, ChunkOf(p))
        case None => Received(Line(s), p, base) == v)
  }

  ghost predicate Alone(flight: seq<Block>, c: Chunk) {
    forall i, j :: 0 <= i < j < |flight| && flight[i].chunk == c ==> flight[j].chunk != c
  }

  /** No guest write of the run touches chunk `c`. */
  ghost predicate LeavesAlone(ts: seq<Step>, c: Chunk) {
    forall i :: 0 <= i < |ts| && ts[i].Issue? ==> c !in Marked(ts[i].w)
  }

  lemma StaysSettled(s: State, t: Step, p: Place, v: Sector, base: Place -> Sector)
    requires Possible(s, t) && Settled(s, p, v, base) && (t.Issue? ==> ChunkOf(p) !in Marked(t.w))
    ensures Settled(Apply(s, t), p, v, base) && Apply(s, t).src(p) == s.src(p)
  {
    hide Last, Received, Blocks, Marked, AfterChunk;
    var c := ChunkOf(p);
    KeepsCursors(s, t);
    match t
    case Land(id, sector) => CoversMarks(s.writes[id], Place(s.writes[id].dev, sector));
    case BulkRead(d) =>
      if d == p.dev {
        CursorPast(s.cursor[d], s.total[d], p.sector);
      }
      LastAppended(s.flight, Block(Chunk(d, s.cursor[d] / CHUNK), map[]), c);
    case DirtyRead(x) => LastAppended(s.flight, Block(x, map[]), c);
    case Sample(k, sector) => SampleSettled(s, t, p, v, base);
    case Complete(k) => CompleteSettled(s, t, p, v, base);
    case Flush => FlushKeepsLine(s);
    case Progress(_) => OtherKeepsLine(s, t);
    case EndSection => OtherKeepsLine(s, t);
    case _ =>
  }

  lemma CoversMarks(w: Write, p: Place)
    requires w.Covers(p)
    ensures ChunkOf(p) in Marked(w)
  {
    DirtyBitmap.TouchedExactly(w.sector, |w.data|, p.sector / CHUNK);
  }

  lemma CursorPast(cursor: nat, total: nat, sector: nat)
    requires sector < cursor < total && cursor % CHUNK == 0
    ensures sector / CHUNK != cursor / CHUNK && sector < AfterChunk(cursor, total)
  {
  }

  lemma SampleSettled(s: State, t: Step, p: Place, v: Sector, base: Place -> Sector)
    requires Possible(s, t) && t.Sample? && Settled(s, p, v, base)
    ensures Settled(Apply(s, t), p, v, base)
  {
    hide Received, Blocks;
    var b := s.flight[t.k];
    var b' := b.(buf := b.buf[t.sector := s.src(Place(b.chunk.dev, t.sector))]);
    LastUpdated(s.flight, t.k, b', ChunkOf(p));
  }

  lemma CompleteSettled(s: State, t: Step, p: Place, v: Sector, base: Place -> Sector)
    requires Possible(s, t) && t.Complete? && Settled(s, p, v, base)
    ensures Settled(Apply(s, t), p, v, base)
  {
    hide Last, Blocks;
    var s', b, c := Apply(s, t), s.flight[t.k], ChunkOf(p);
    assert Line(s') == Line(s) + [b];
    LastAppended(Line(s), b, c);
    if b.chunk == c {
      LastIsOne(s.flight, c);
      assert Alone(s.flight, c);
      LastRemoved(s.flight, t.k, c);
      OnlyGone(s.flight, t.k, c);
    } else {
      OthersGone(s.flight, t.k, c);
    }
  }

  lemma OnlyGone(bs: seq<Block>, k: nat, c: Chunk)
    requires k < |bs| && bs[k].chunk == c && Alone(bs, c)
    ensures Last(bs, c) == Some(bs[k]) && Last(bs[..k] + bs[k + 1..], c) == None
  {
    LastIsOne(bs, c);
    var rest := bs[..k] + bs[k + 1..];
    LastIsOne(rest, c);
    assert forall i :: 0 <= i < |rest| ==> rest[i] == bs[if i < k then i else i + 1];
  }

  lemma OthersGone(bs: seq<Block>, k: nat, c: Chunk)
    requires k < |bs| && bs[k].chunk != c
    ensures Last(bs[..k] + bs[k + 1..], c) == Last(bs, c)
    ensures Alone(bs, c) ==> Alone(bs[..k] + bs[k + 1..], c)
  {
    var a, d := bs[..k], bs[k + 1..];
    assert bs == (a + [bs[k]]) + d;
    LastJoin(a + [bs[k]], d, c);
    LastJoin(a, d, c);
    LastAppended(a, bs[k], c);
    assert forall i :: 0 <= i < |a + d| ==> (a + d)[i] == bs[if i < k then i else i + 1];
  }

  lemma {:induction false} SettledArrives(s: State, ts: seq<Step>, end: State, p: Place, v: Sector, base: Place -> Sector)
    requires Reaches(s, ts, end) && LeavesAlone(ts, ChunkOf(p)) && Settled(s, p, v, base)
    ensures Settled(end, p, v, base) && end.src(p) == s.src(p)
    decreases |ts|
  {
    hide Settled, Possible, Apply;
    if ts != [] {
      StaysSettled(s, ts[0], p, v, base);
      SettledArrives(Apply(s, ts[0]), ts[1..], end, p, v, base);
    }
  }

  /** Two reads of a chunk are in flight, and the guest leaves the chunk alone from now on.  However the run goes
      on, the destination ends up with what the read that completes last has seen. */
  lemma LastCompletionWins(s: State, first: nat, last: nat, ts: seq<Step>, end: State, p: Place, base: Place -> Sector)
    requires first < |s.flight| && last < |s.flight| && first != last
    requires forall i :: 0 <= i < |s.flight| ==> (s.flight[i].chunk == ChunkOf(p) <==> i == first || i == last)
    requires p.sector in s.flight[last].buf && Cursors(s) && Behind(s, p) && ChunkOf(p) !in s.dirty
    requires forall id :: id in s.writes ==> ChunkOf(p) !in Marked(s.writes[id])
    requires Possible(s, Complete(first)) && Reaches(Apply(s, Complete(first)), ts, end)
    requires LeavesAlone(ts, ChunkOf(p)) && Quiet(end)
    ensures end.src(p) == s.src(p) && Received(Blocks(end.stream), p, base) == s.flight[last].buf[p.sector]
  {
    hide Last, Blocks, Received, Marked, Reaches, LeavesAlone;
    var s', c := Apply(s, Complete(first)), ChunkOf(p);
    var rest := s.flight[..first] + s.flight[first + 1..];
    var k := if last < first then last else last - 1;
    assert forall i :: 0 <= i < |rest| ==> rest[i] == s.flight[if i < first then i else i + 1];
    assert rest[k] == s.flight[last] && Alone(rest, c);
    OnlyGone(rest, k, c);
    assert Settled(s', p, s.flight[last].buf[p.sector], base);
    SettledArrives(s', ts, end, p, s.flight[last].buf[p.sector], base);
    LastIsOne(end.flight, c);
    assert Line(end) == Blocks(end.stream);
  }

  /** So when a newer read of a chunk overtakes an older one, the destination is right if and only if the older
      one has seen what the source holds; nothing is left to correct it. */
  lemma OvertakingLoses(s: State, older: nat, newer: nat, ts: seq<Step>, end: State, p: Place, base: Place -> Sector)
    requires older < newer < |s.flight|
    requires forall i :: 0 <= i < |s.flight| ==> (s.flight[i].chunk == ChunkOf(p) <==> i == older || i == newer)
    requires p.sector in s.flight[older].buf && Cursors(s) && Behind(s, p) && ChunkOf(p) !in s.dirty
    requires forall id :: id in s.writes ==> ChunkOf(p) !in Marked(s.writes[id])
    requires Possible(s, Complete(newer)) && Reaches(Apply(s, Complete(newer)), ts, end)
    requires LeavesAlone(ts, ChunkOf(p)) && Quiet(end)
    ensures Received(Blocks(end.stream), p, base) == end.src(p) <==> s.flight[older].buf[p.sector] == s.src(p)
  {
    LastCompletionWins(s, newer, older, ts, end, p, base);
  }

  // ----- a run in which it happens -----

  /** One device of one sector, gone through by the bulk phase, with these reads in flight. */
  ghost predicate Small(s: State, flight: seq<Block>, dirty: set<Chunk>, now: Sector) {
    && s.total == s.cursor == [1] && s.writes == map[] && s.dirty == dirty && s.queue == [] && s.stream == [EosItem()]
    && s.flight == flight && s.src(Place(0, 0)) == now
  }

  function SmallBlock(data: Sector): Block {
    Block(Chunk(0, 0), map[0 := data])
  }

  /** The bulk read of a chunk and a read of it because it is dirty can be in flight together.  If the second
      completes first, the migration goes to its end with the old data: from every start with one device of
      one sector there is such a run. */
  lemma OvertakingHappens(start: State, b: Sector, base: Place -> Sector) returns (ts: seq<Step>, end: State)
    requires Start(start) && start.total == [1] && start.writes == map[] && b != start.src(Place(0, 0))
    ensures Reaches(start, ts, end) && Quiet(end) && end.dirty == {}
    ensures end.src(Place(0, 0)) == b && Received(Blocks(end.stream), Place(0, 0), base) == start.src(Place(0, 0)) != b
  {
    hide Reaches;
    var a := start.src(Place(0, 0));
    ts, end := BulkReadSampled(start);
    ts, end := GuestWriteMarked(start, ts, end, a, b);
    ts, end := DirtyReadSampled(start, ts, end, a, b);
    ts, end := SecondOvertakes(start, ts, end, a, b);
    StaleStream(a, b);
  }

  lemma BulkReadSampled(start: State) returns (ts: seq<Step>, s: State)
    requires Start(start) && start.total == [1] && start.writes == map[]
    ensures Reaches(start, ts, s) && s.busy == {}
    ensures Small(s, [SmallBlock(start.src(Place(0, 0)))], {}, start.src(Place(0, 0)))
  {
    assert Reaches(start, [], start);
    ts, s := Then(start, [], start, BulkRead(0));
    assert s.flight == [Block(Chunk(0, 0), map[])] && s.cursor == [1] && s.dirty == {};
    ts, s := Then(start, ts, s, Sample(0, 0));
  }

  lemma GuestWriteMarked(start: State, ts0: seq<Step>, s0: State, a: Sector, b: Sector) returns (ts: seq<Step>, s: State)
    requires Reaches(start, ts0, s0) && Small(s0, [SmallBlock(a)], {}, a) && s0.busy == {}
    ensures Reaches(start, ts, s) && Small(s, [SmallBlock(a)], {Chunk(0, 0)}, b) && s.busy == {}
  {
    hide Reaches, Marked;
    var w := Write(0, 0, [b]);
    ts, s := Then(start, ts0, s0, Issue(0, w));
    ts, s := Then(start, ts, s, Land(0, 0));
    ts, s := Then(start, ts, s, Mark(0));
    MarksOne(w);
    assert s.writes == map[];
  }

  lemma MarksOne(w: Write)
    requires w.dev == w.sector == 0 && |w.data| == 1
    ensures Marked(w) == {Chunk(0, 0)}
  {
    assert DirtyBitmap.Touched(0, 1) == {0} by {
      assert DirtyBitmap.Spans(0, 1, 0) && 0 in DirtyBitmap.Touched(0, 1);
    }
  }

  lemma DirtyReadSampled(start: State, ts0: seq<Step>, s0: State, a: Sector, b: Sector) returns (ts: seq<Step>, s: State)
    requires Reaches(start, ts0, s0) && Small(s0, [SmallBlock(a)], {Chunk(0, 0)}, b) && s0.busy == {}
    ensures Reaches(start, ts, s) && Small(s, [SmallBlock(a), SmallBlock(b)], {}, b)
  {
    hide Reaches;
    ts, s := Then(start, ts0, s0, DirtyRead(Chunk(0, 0)));
    assert s.flight == [SmallBlock(a), Block(Chunk(0, 0), map[])] && s.dirty == {};
    ts, s := Then(start, ts, s, Sample(1, 0));
  }

  lemma SecondOvertakes(start: State, ts0: seq<Step>, s0: State, a: Sector, b: Sector) returns (ts: seq<Step>, s: State)
    requires Reaches(start, ts0, s0) && Small(s0, [SmallBlock(a), SmallBlock(b)], {}, b)
    ensures Reaches(start, ts, s) && Quiet(s) && s.dirty == {} && s.stream == StaleItems(a, b)
    ensures s.src(Place(0, 0)) == b
  {
    hide Reaches;
    ts, s := Then(start, ts0, s0, Complete(1));
    assert s.flight == [SmallBlock(a)] && s.queue == [SmallBlock(b)];
    ts, s := Then(start, ts, s, Complete(0));
    assert s.flight == [] && s.queue == [SmallBlock(b), SmallBlock(a)];
    ts, s := Then(start, ts, s, Flush);
    assert s.queue == [SmallBlock(a)];
    ts, s := Then(start, ts, s, Flush);
    assert s.queue == [];
  }

  function StaleItems(a: Sector, b: Sector): seq<Item> {
    [EosItem()] + [BlockItem(SmallBlock(b))] + [BlockItem(SmallBlock(a))]
  }

  lemma StaleStream(a: Sector, b: Sector)
    ensures Last(Blocks(StaleItems(a, b)), Chunk(0, 0)) == Some(SmallBlock(a))
  {
    var i := BlockItem(SmallBlock(a));
    HeadersAreRead(SmallBlock(a), 0);
    BlocksAppended([EosItem()] + [BlockItem(SmallBlock(b))], i);
    LastAppended(Blocks([EosItem()] + [BlockItem(SmallBlock(b))]), BlockIn(i), Chunk(0, 0));
  }

  // ----- the last phase -----

  /** How many of the `n` reads from number `k` on succeed. */
  function Successes(result: nat -> int, k: nat, n: nat): nat {
    if n == 0 then 0 else Successes(result, k, n - 1) + if result(k + n - 1) >= 0 then 1 else 0
  }

  /** How many of `d` dirty chunks are left after `n` rounds of the last loop: a round whose read fails changes
      nothing, and the loop goes on. */
  function Left(result: nat -> int, k: nat, d: nat, n: nat): nat {
    if n == 0 then d
    else
      var l := Left(result, k, d, n - 1);
      if l > 0 && result(k + n - 1) >= 0 then l - 1 else l
  }

  lemma {:induction false} LeftIs(result: nat -> int, k: nat, d: nat, n: nat)
    ensures Left(result, k, d, n) == if Successes(result, k, n) >= d then 0 else d - Successes(result, k, n)
  {
    if n > 0 {
      LeftIs(result, k, d, n - 1);
    }
  }

  /** The last loop ends if and only if as many reads succeed as there are dirty chunks; a read that keeps failing
      keeps it going for ever. */
  lemma LastLoopEnds(result: nat -> int, k: nat, d: nat)
    ensures (exists n: nat :: Left(result, k, d, n) == 0) <==> (exists n: nat :: Successes(result, k, n) >= d)
    ensures d > 0 && (forall i: nat :: i >= k ==> result(i) < 0) ==> forall n: nat :: Left(result, k, d, n) == d
  {
    forall n: nat ensures Left(result, k, d, n) == if Successes(result, k, n) >= d then 0 else d - Successes(result, k, n) {
      LeftIs(result, k, d, n);
    }
    if n: nat :| Left(result, k, d, n) == 0 {
      LeftIs(result, k, d, n);
      assert Successes(result, k, n) >= d;
    }
    if n: nat :| Successes(result, k, n) >= d {
      LeftIs(result, k, d, n);
      assert Left(result, k, d, n) == 0;
    }
    if forall i: nat :: i >= k ==> result(i) < 0 {
      forall n: nat ensures Successes(result, k, n) == 0 {
        NoSuccess(result, k, n);
      }
    }
  }

  lemma {:induction false} NoSuccess(result: nat -> int, k: nat, n: nat)
    requires forall i: nat :: i >= k ==> result(i) < 0
    ensures Successes(result, k, n) == 0
  {
    if n > 0 {
      NoSuccess(result, k, n - 1);
    }
  }

  ghost predicate AllRead(result: nat -> int, from: nat, to: nat) {
    forall i: nat :: from <= i < to ==> result(i) >= 0
  }

  /** The sender with the guest stopped and no read in flight.  `result` says how each of its reads ends. */
  class Sender {
    const total: seq<nat>
    const src: Place -> Sector
    const result: nat -> int
    var done: nat              // how many of them there have been
    var dirty: set<Chunk>
    var curDirty: seq<nat>
    var stream: seq<Item>
    var error: int             // of the file

    constructor (total: seq<nat>, src: Place -> Sector, dirty: set<Chunk>, stream: seq<Item>, result: nat -> int)
      ensures this.total == total && this.src == src && this.dirty == dirty && this.stream == stream
      ensures this.result == result && done == 0 && error == 0 && |curDirty| == |total|
    {
      this.total, this.src, this.dirty, this.stream, this.result := total, src, dirty, stream, result;
      done, error := 0, 0;
      curDirty := seq(|total|, _ => 0);
    }

    /** No dirty chunk has been passed by. */
    ghost predicate Scanning()
      reads this
    {
      && |curDirty| == |total|
      && (forall d :: 0 <= d < |total| ==> curDirty[d] % CHUNK == 0)
      && (forall c :: c in dirty ==> ChunkFits(total, c) && curDirty[c.dev] <= c.no * CHUNK)
    }

    function ReadChunk(c: Chunk): Block
      requires c.dev < |total|
    {
      Block(c, map x: nat | x < total[c.dev] && x / CHUNK == c.no :: src(Place(c.dev, x)))
    }

    /** The file takes nothing more once it has an error. */
    method Put(i: Item)
      modifies this`stream
      ensures stream == if error == 0 then old(stream) + [i] else old(stream)
    {
      if error == 0 {
        stream := stream + [i];
      }
    }

    /** A dirty chunk was read, and sent if the file took it; or its read failed and it stays dirty. */
    twostate predicate SentOne()
      reads this
    {
      && done == old(done) + 1
      && exists c :: c in old(dirty) && c.dev < |total| &&
           if result(old(done)) < 0 then error == result(old(done)) && dirty == old(dirty) && stream == old(stream)
           else error == old(error) && dirty == old(dirty) - {c} &&
                stream == old(stream) + if error == 0 then [BlockItem(ReadChunk(c))] else []
    }

    twostate predicate Same()
      reads this
    {
      done == old(done) && dirty == old(dirty) && stream == old(stream) && error == old(error)
    }

    /** `mig_save_device_dirty`, synchronous; whether the device has been gone through */
    method SaveDeviceDirty(dev: nat) returns (through: bool)
      requires Scanning() && dev < |total|
      modifies this`done, this`dirty, this`curDirty, this`stream, this`error
      ensures Scanning() && (forall d :: dev < d < |total| ==> curDirty[d] == old(curDirty)[d])
      ensures through ==> Same() && forall c :: c in dirty ==> c.dev != dev
      ensures !through ==> SentOne()
    {
      var sector := curDirty[dev];
      while sector < total[dev]
        invariant Scanning() && sector == curDirty[dev] && Same()
        invariant forall d :: dev < d < |total| ==> curDirty[d] == old(curDirty)[d]
      {
        var c := Chunk(dev, sector / CHUNK);
        if c in dirty {
          var ret := result(done);
          done := done + 1;
          if ret < 0 {
            error := ret;
            return false;
          }
          Put(BlockItem(ReadChunk(c)));
          dirty := dirty - {c};
          break;
        }
        sector := sector + CHUNK;
        curDirty := curDirty[dev := sector];
      }
      return curDirty[dev] >= total[dev];
    }

    /** `blk_mig_save_dirty_block`, synchronous; whether to go on */
    method SaveDirtyBlock() returns (more: bool)
      requires Scanning()
      modifies this`done, this`dirty, this`curDirty, this`stream, this`error
      ensures Scanning() && (more <==> old(dirty) != {})
      ensures if more then SentOne() else Same()
    {
      for dev := 0 to |total|
        invariant Scanning() && Same()
        invariant forall c :: c in dirty ==> c.dev >= dev
      {
        var through := SaveDeviceDirty(dev);
        if !through {
          return true;
        }
      }
      return false;
    }

    /** Every sector is in a dirty chunk, or the stream has it. */
    ghost predicate DirtyOrSent(base: Place -> Sector)
      reads this
    {
      forall p: Place :: p.dev < |total| && p.sector < total[p.dev] ==>
        ChunkOf(p) in dirty || Received(Blocks(stream), p, base) == src(p)
    }

    /** The loop of `block_save_complete`.  It is given how many reads it takes until as many have succeeded as
        there are dirty chunks.  The file is without an error, and has everything, if none of the reads failed. */
    method SendDirty(ghost base: Place -> Sector, ghost n: nat)
      requires |curDirty| == |total| && (forall c :: c in dirty ==> ChunkFits(total, c)) && DirtyOrSent(base)
      requires error == 0 && Successes(result, done, n) >= |dirty|
      modifies this`done, this`dirty, this`curDirty, this`stream, this`error
      ensures dirty == {} && done >= old(done) && Left(result, old(done), |old(dirty)|, done - old(done)) == 0
      ensures error == 0 <==> AllRead(result, old(done), done)
      ensures error == 0 ==> DirtyOrSent(base)
      ensures Adds(total, old(stream), stream)
    {
      hide Adds, Sender.DirtyOrSent, Left, AllRead, Successes;
      curDirty := seq(|total|, _ => 0);
      var more := true;
      AddsBoth(total, stream, stream, stream);
      SameView(base);
      LeftIs(result, done, |dirty|, n);
      RoundsStart(result, done, |dirty|);
      while more
        invariant Going(base, old(done), |old(dirty)|, old(stream)) && done <= old(done) + n && (!more ==> dirty == {})
        decreases more, old(done) + n - done
      {
        more := OneRound(base, old(done), |old(dirty)|, old(stream));
      }
    }

    /** What the loop keeps, when it started at read `k` with `d` dirty chunks. */
    ghost predicate Going(base: Place -> Sector, k: nat, d: nat, stream0: seq<Item>)
      reads this
    {
      && Scanning() && (error == 0 ==> DirtyOrSent(base))
      && k <= done && |dirty| == Left(result, k, d, done - k)
      && (error == 0 <==> AllRead(result, k, done)) && Adds(total, stream0, stream)
    }

    /** One round of the loop. */
    method OneRound(ghost base: Place -> Sector, ghost k: nat, ghost d: nat, ghost stream0: seq<Item>) returns (more: bool)
      requires Going(base, k, d, stream0)
      modifies this`done, this`dirty, this`curDirty, this`stream, this`error
      ensures Going(base, k, d, stream0) && (more <==> old(dirty) != {})
      ensures if more then done == old(done) + 1 else dirty == {} && done == old(done)
    {
      hide Adds, Sender.DirtyOrSent, Left, AllRead;
      more := SaveDirtyBlock();
      if more {
        Advanced(base);
        RoundsMore(result, k, d, old(done) - k);
      } else {
        SameView(base);
      }
      AddsBoth(total, stream0, old(stream), stream);
    }

    twostate lemma SameView(base: Place -> Sector)
      requires dirty == old(dirty) && stream == old(stream)
      ensures (old(DirtyOrSent(base)) ==> DirtyOrSent(base)) && Adds(total, old(stream), stream)
    {
    }

    twostate lemma Advanced(base: Place -> Sector)
      requires SentOne() && Scanning() && old(Scanning())
      ensures old(error) == 0 && old(DirtyOrSent(base)) && error == 0 ==> DirtyOrSent(base)
      ensures |dirty| == if result(old(done)) < 0 then |old(dirty)| else |old(dirty)| - 1
      ensures error == if result(old(done)) < 0 then result(old(done)) else old(error)
      ensures Adds(total, old(stream), stream) && old(dirty) != {}
    {
      if result(old(done)) >= 0 {
        var c :| c in old(dirty) && c.dev < |total| && error == old(error) && dirty == old(dirty) - {c} &&
                 stream == old(stream) + if error == 0 then [BlockItem(ReadChunk(c))] else [];
        SendingHelps(old(stream), c, base);
        assert FullBlock(total, ReadChunk(c));
      }
    }

    /** `block_save_complete` after its first flush.  It succeeds, with everything sent and the section ended, if
        and only if the file had no error and none of its reads failed; otherwise the section is not ended. */
    method CompleteSave(ghost base: Place -> Sector, ghost n: nat) returns (ret: int)
      requires |curDirty| == |total| && (forall c :: c in dirty ==> ChunkFits(total, c)) && DirtyOrSent(base)
      requires Successes(result, done, n) >= |dirty|
      modifies this
      ensures done >= old(done) && (ret == 0 <==> old(error) == 0 && AllRead(result, old(done), done))
      ensures ret == 0 ==> dirty == {} && DirtyOrSent(base) && |stream| > 0 && stream[|stream| - 1] == EosItem()
      ensures ret == 0 ==> Extends(total, old(stream), stream)
      ensures ret != 0 ==> Adds(total, old(stream), stream)
    {
      if error != 0 {
        AddsBoth(total, stream, stream, stream);
        return error;
      }
      SendDirty(base, n);
      ghost var sent := stream;
      Put(ProgressItem(100));
      if error != 0 {
        return error;
      }
      Put(EosItem());
      BlocksAppended(sent, ProgressItem(100));
      BlocksAppended(sent + [ProgressItem(100)], EosItem());
      HeadersAreRead(Block(Chunk(0, 0), map[]), 100);
      assert Blocks(stream) == Blocks(sent);
      AddsExtends(total, old(stream), sent);
      return 0;
    }

    lemma SendingHelps(stream0: seq<Item>, c: Chunk, base: Place -> Sector)
      requires c.dev < |total|
      ensures forall p: Place :: p.dev < |total| && p.sector < total[p.dev] ==>
                Received(Blocks(stream0 + [BlockItem(ReadChunk(c))]), p, base) ==
                if ChunkOf(p) == c then src(p) else Received(Blocks(stream0), p, base)
    {
      var b := ReadChunk(c);
      HeadersAreRead(b, 0);
      BlocksAppended(stream0, BlockItem(b));
      assert BlockIn(BlockItem(b)) == b;
      forall p: Place | p.dev < |total| && p.sector < total[p.dev]
        ensures Received(Blocks(stream0 + [BlockItem(b)]), p, base) ==
                if ChunkOf(p) == c then src(p) else Received(Blocks(stream0), p, base)
      {
        LastAppended(Blocks(stream0), b, ChunkOf(p));
        assert ChunkOf(p) == c ==> Place(c.dev, p.sector) == p;
      }
    }
  }

  lemma RoundsStart(result: nat -> int, k: nat, d: nat)
    ensures Left(result, k, d, 0) == d && AllRead(result, k, k)
  {
  }

  lemma RoundsMore(result: nat -> int, k: nat, d: nat, n: nat)
    ensures Left(result, k, d, n + 1) ==
            if Left(result, k, d, n) > 0 && result(k + n) >= 0 then Left(result, k, d, n) - 1 else Left(result, k, d, n)
    ensures AllRead(result, k, k + n + 1) <==> AllRead(result, k, k + n) && result(k + n) >= 0
  {
  }

  /** Blocks have been added to the stream, and nothing else. */
  ghost predicate Adds(total: seq<nat>, a: seq<Item>, b: seq<Item>) {
    a <= b && forall i :: |a| <= i < |b| ==> IsBlockItem(total, b[i])
  }

  ghost predicate IsBlockItem(total: seq<nat>, i: Item) {
    exists b: Block :: ChunkFits(total, b.chunk) && FullBlock(total, b) && i == BlockItem(b)
  }

  lemma AddsBoth(total: seq<nat>, a: seq<Item>, b: seq<Item>, c: seq<Item>)
    ensures Adds(total, a, a) && (Adds(total, a, b) && Adds(total, b, c) ==> Adds(total, a, c))
  {
  }

  /** The section is not ended by them; with the end it is a section. */
  lemma AddsExtends(total: seq<nat>, a: seq<Item>, b: seq<Item>)
    requires Adds(total, a, b)
    ensures EosItem() !in b[|a|..] && Extends(total, a, b + [ProgressItem(100)] + [EosItem()])
  {
    forall i | |a| <= i < |b| ensures b[i] != EosItem() && IsItem(total, b[i]) {
      assert IsBlockItem(total, b[i]);
      var x: Block :| ChunkFits(total, x.chunk) && FullBlock(total, x) && b[i] == BlockItem(x);
      HeadersAreRead(x, 0);
    }
    OtherIsItem(total, 100);
  }

  // ----- the receiver -----

  lemma ItemKinds(total: seq<nat>, i: Item)
    requires IsItem(total, i)
    ensures Flag(i.header, EOS) <==> i == EosItem()
    ensures Flag(i.header, DEVICE_BLOCK) || Flag(i.header, PROGRESS) || Flag(i.header, EOS)
    ensures Flag(i.header, DEVICE_BLOCK) ==> !Flag(i.header, EOS)
    ensures Flag(i.header, DEVICE_BLOCK) ==>
              var b := BlockIn(i);
              ChunkFits(total, b.chunk) && FullBlock(total, b) && i.header / SECTOR_SIZE == b.chunk.no * CHUNK
  {
    if b: Block :| ChunkFits(total, b.chunk) && FullBlock(total, b) && i == BlockItem(b) {
      HeadersAreRead(b, 0);
      assert BlockIn(i) == b;
    } else if percent: nat :| i == ProgressItem(percent) {
      HeadersAreRead(Block(Chunk(0, 0), map[]), percent);
    }
  }

  /** The disk is what the items make of `base`. */
  ghost predicate Replayed(total: seq<nat>, items: seq<Item>, base: Place -> Sector, disk: Place -> Sector) {
    forall p: Place :: p.dev < |total| && p.sector < total[p.dev] ==> disk(p) == Received(Blocks(items), p, base)
  }

  /** `disk` with the sectors of a chunk's worth from `addr` on taken from `buf`. */
  ghost predicate Written(total: seq<nat>, was: Place -> Sector, disk: Place -> Sector, addr: nat, i: Item) {
    && i.dev < |total|
    && forall p: Place :: disk(p) == if p.dev == i.dev && addr <= p.sector < AfterChunk(addr, total[i.dev]) && p.sector in i.buf
                                     then i.buf[p.sector] else was(p)
  }

  lemma ReplayBlock(total: seq<nat>, items: seq<Item>, i: Item, base: Place -> Sector, was: Place -> Sector, disk: Place -> Sector)
    requires Replayed(total, items, base, was) && IsItem(total, i) && Flag(i.header, DEVICE_BLOCK)
    requires Written(total, was, disk, i.header / SECTOR_SIZE, i)
    ensures Replayed(total, items + [i], base, disk)
  {
    hide Last, Blocks;
    ItemKinds(total, i);
    BlocksAppended(items, i);
    var b := BlockIn(i);
    forall p: Place | p.dev < |total| && p.sector < total[p.dev] ensures disk(p) == Received(Blocks(items + [i]), p, base) {
      LastAppended(Blocks(items), b, ChunkOf(p));
      if p.dev == i.dev {
        ChunkBounds(b.chunk.no, total[i.dev], p.sector);
      }
    }
  }

  lemma ChunkBounds(no: nat, total: nat, sector: nat)
    requires no * CHUNK < total && sector < total
    ensures no * CHUNK <= sector < AfterChunk(no * CHUNK, total) <==> sector / CHUNK == no
  {
  }

  class Receiver {
    const total: seq<nat>
    var disk: Place -> Sector

    constructor (total: seq<nat>, disk: Place -> Sector)
      ensures this.total == total && this.disk == disk
    {
      this.total, this.disk := total, disk;
    }

    /** A block is written to the disk, up to the end of the device; a write that fails may have reached any of
        its sectors. */
    method WriteBlock(addr: nat, i: Item, fails: bool) returns (ok: bool)
      requires i.dev < |total|
      modifies this
      ensures ok <==> !fails
      ensures ok ==> Written(total, old(disk), disk, addr, i)
      ensures forall p: Place :: disk(p) == old(disk)(p) || (p.dev == i.dev && p.sector in i.buf && disk(p) == i.buf[p.sector])
    {
      var was, end := disk, AfterChunk(addr, total[i.dev]);
      var some: set<nat> := *;
      disk := (p: Place) => if p.dev == i.dev && addr <= p.sector < end && p.sector in i.buf && (!fails || p.sector in some)
                            then i.buf[p.sector] else was(p);
      return !fails;
    }

    /** `block_load`: the items up to the next EOS; `fails(k)` is whether the write of item `k` fails.  It succeeds
        if and only if it gets there with every item accepted. */
    method Load(items: seq<Item>, from: nat, fails: nat -> bool) returns (ret: int, next: nat)
      requires from <= |items|
      modifies this
      ensures from <= next <= |items|
      ensures Ended(total, items, from, next, fails, ret == 0)
      ensures AllItems(total, items) && (from == next || Accepted(total, items[next - 1], fails(next - 1))) ==>
                Replayed(total, items[from..next], old(disk), disk)
      ensures AllItems(total, items) ==> (ret == 0 <==> EosItem() in items[from..next])
    {
      hide Replayed, Written, IsItem, Flag, Blocks, AfterChunk, Accepted;
      next := from;
      ghost var good := AllItems(total, items);
      assert items[from..next] == [];
      ReplayNone(total, disk);
      while true
        invariant from <= next <= |items|
        invariant good ==> Replayed(total, items[from..next], old(disk), disk)
        invariant AllPassed(total, items, from, next, fails) && (good ==> EosItem() !in items[from..next])
        decreases |items| - next
      {
        if next == |items| {
          return -EIO, next;
        }
        var i := items[next];
        ghost var before := items[from..next];
        AcceptedIs(total, i, fails(next));
        next := next + 1;
        assert items[from..next] == before + [i];
        if good {
          ItemKinds(total, i);
          NotBlock(total, before, i, old(disk), disk);
        }
        var addr := i.header / SECTOR_SIZE;
        if Flag(i.header, DEVICE_BLOCK) {
          if i.dev >= |total| || total[i.dev] == 0 {
            return -EINVAL, next;
          }
          if addr > total[i.dev] {
            return -EIO, next;
          }
          ghost var was := disk;
          var ok := WriteBlock(addr, i, fails(next - 1));
          if !ok {
            return -EIO, next;
          }
          if good {
            ReplayBlock(total, before, i, old(disk), was, disk);
          }
        } else if Flag(i.header, PROGRESS) {
        } else if !Flag(i.header, EOS) {
          return -EINVAL, next;
        }
        if Flag(i.header, EOS) {
          return 0, next;
        }
      }
    }
  }

  /** The receiver takes the item: a block for a device that is there and not empty, not beyond its end, that can
      be written; or an item of another kind that it knows. */
  predicate Accepted(total: seq<nat>, i: Item, fails: bool) {
    if Flag(i.header, DEVICE_BLOCK) then i.dev < |total| && 0 < total[i.dev] && i.header / SECTOR_SIZE <= total[i.dev] && !fails
    else Flag(i.header, PROGRESS) || Flag(i.header, EOS)
  }

  lemma AcceptedIs(total: seq<nat>, i: Item, fails: bool)
    ensures Flag(i.header, DEVICE_BLOCK) ==>
              (Accepted(total, i, fails) <==> i.dev < |total| && 0 < total[i.dev] && i.header / SECTOR_SIZE <= total[i.dev] && !fails)
    ensures !Flag(i.header, DEVICE_BLOCK) ==> (Accepted(total, i, fails) <==> Flag(i.header, PROGRESS) || Flag(i.header, EOS))
  {
  }

  ghost predicate AllPassed(total: seq<nat>, items: seq<Item>, from: nat, to: nat, fails: nat -> bool)
    requires to <= |items|
  {
    forall k: nat :: from <= k < to ==> Accepted(total, items[k], fails(k)) && !Flag(items[k].header, EOS)
  }

  /** A section has been read from `from` on: to its end, to an item that is refused, or to the end of the stream. */
  ghost predicate Ended(total: seq<nat>, items: seq<Item>, from: nat, next: nat, fails: nat -> bool, ok: bool)
    requires from <= next <= |items|
  {
    if next > from && AllPassed(total, items, from, next - 1, fails) && !AllPassed(total, items, from, next, fails) then
      ok <==> Accepted(total, items[next - 1], fails(next - 1))
    else !ok && next == |items| && AllPassed(total, items, from, next, fails)
  }

  lemma ReplayNone(total: seq<nat>, disk: Place -> Sector)
    ensures Replayed(total, [], disk, disk)
  {
  }

  lemma NotBlock(total: seq<nat>, items: seq<Item>, i: Item, base: Place -> Sector, disk: Place -> Sector)
    requires Replayed(total, items, base, disk)
    ensures !Flag(i.header, DEVICE_BLOCK) ==> Replayed(total, items + [i], base, disk)
  {
    BlocksAppended(items, i);
    assert Blocks(items) + [] == Blocks(items);
  }

  // ----- the whole migration -----

  lemma {:induction false} BlocksJoin(a: seq<Item>, b: seq<Item>)
    ensures Blocks(a + b) == Blocks(a) + Blocks(b)
  {
    if b == [] {
      assert a + b == a;
    } else {
      var b' := b[..|b| - 1];
      assert (a + b)[..|a + b| - 1] == a + b';
      BlocksJoin(a, b');
    }
  }

  lemma ReplayMore(total: seq<nat>, a: seq<Item>, b: seq<Item>, base: Place -> Sector, mid: Place -> Sector, disk: Place -> Sector)
    requires AllItems(total, b) && Replayed(total, a, base, mid) && Replayed(total, b, mid, disk)
    ensures Replayed(total, a + b, base, disk)
  {
    hide Last, Blocks;
    BlocksJoin(a, b);
    forall p: Place | p.dev < |total| && p.sector < total[p.dev] ensures disk(p) == Received(Blocks(a + b), p, base) {
      LastJoin(Blocks(a), Blocks(b), ChunkOf(p));
      AllFull(total, b, p);
    }
  }

  /** A block in a sender's items has every sector of its chunk. */
  lemma AllFull(total: seq<nat>, items: seq<Item>, p: Place)
    requires AllItems(total, items) && p.dev < |total| && p.sector < total[p.dev]
    ensures Last(Blocks(items), ChunkOf(p)).Some? ==> p.sector in Last(Blocks(items), ChunkOf(p)).value.buf
  {
    if items != [] {
      var i, front := items[|items| - 1], items[..|items| - 1];
      AllFull(total, front, p);
      assert items == front + [i];
      BlocksAppended(front, i);
      ItemKinds(total, i);
      if Flag(i.header, DEVICE_BLOCK) {
        LastAppended(Blocks(front), BlockIn(i), ChunkOf(p));
      } else {
        assert Blocks(front) + [] == Blocks(front);
      }
    }
  }

  /** The whole stream is taken: all items are accepted, and it ends with the end of a section. */
  ghost predicate Taken(total: seq<nat>, items: seq<Item>, fails: nat -> bool) {
    && (forall k: nat :: k < |items| ==> Accepted(total, items[k], fails(k)))
    && (items == [] || Flag(items[|items| - 1].header, EOS))
  }

  /** None of the writes fails. */
  ghost predicate NoneFails(items: seq<Item>, fails: nat -> bool) {
    forall k: nat :: k < |items| && Flag(items[k].header, DEVICE_BLOCK) ==> !fails(k)
  }

  /** A sender's stream is taken unless a write fails. */
  lemma SendersIsTaken(total: seq<nat>, items: seq<Item>, fails: nat -> bool)
    requires AllItems(total, items) && items != [] && items[|items| - 1] == EosItem()
    ensures Taken(total, items, fails) <==> NoneFails(items, fails)
  {
    hide IsItem, FullBlock, Flag;
    forall k: nat | k < |items|
      ensures Accepted(total, items[k], fails(k)) <==> (Flag(items[k].header, DEVICE_BLOCK) ==> !fails(k))
    {
      ItemKinds(total, items[k]);
    }
    ItemKinds(total, items[|items| - 1]);
  }

  /** The receiver goes through a whole stream, section by section: it succeeds if and only if it takes all of it. */
  method LoadAll(receiver: Receiver, items: seq<Item>, fails: nat -> bool) returns (ret: int)
    modifies receiver
    ensures ret == 0 <==> Taken(receiver.total, items, fails)
    ensures ret == 0 && AllItems(receiver.total, items) ==>
              Replayed(receiver.total, items, old(receiver.disk), receiver.disk)
  {
    hide Replayed, AllItems, Taken, Ended;
    var at := 0;
    ret := 0;
    ReplayNone(receiver.total, receiver.disk);
    assert items[..0] == [];
    TakenNone(receiver.total, fails);
    while at < |items|
      invariant at <= |items| && ret == 0
      invariant AllItems(receiver.total, items) ==> Replayed(receiver.total, items[..at], old(receiver.disk), receiver.disk)
      invariant Taken(receiver.total, items[..at], fails)
    {
      ghost var mid := receiver.disk;
      var next;
      ret, next := receiver.Load(items, at, fails);
      if ret != 0 {
        NotTaken(receiver.total, items, at, next, fails);
        return;
      }
      TakenMore(receiver.total, items, at, next, fails);
      if AllItems(receiver.total, items) {
        EndedAccepted(receiver.total, items, at, next, fails);
        SomeItems(receiver.total, items, at, next);
        assert items[..next] == items[..at] + items[at..next];
        ReplayMore(receiver.total, items[..at], items[at..next], old(receiver.disk), mid, receiver.disk);
      }
      at := next;
    }
    assert items[..at] == items;
  }

  lemma TakenNone(total: seq<nat>, fails: nat -> bool)
    ensures Taken(total, [], fails)
  {
  }

  lemma TakenMore(total: seq<nat>, items: seq<Item>, at: nat, next: nat, fails: nat -> bool)
    requires at <= next <= |items| && Taken(total, items[..at], fails) && Ended(total, items, at, next, fails, true)
    ensures at < next && Taken(total, items[..next], fails)
  {
    hide Accepted, Flag;
    forall k: nat | k < next ensures Accepted(total, items[k], fails(k)) {
      if k < at {
        assert items[..at][k] == items[k];
      }
    }
    assert items[..next][next - 1] == items[next - 1];
  }

  lemma EndedAccepted(total: seq<nat>, items: seq<Item>, at: nat, next: nat, fails: nat -> bool)
    requires at <= next <= |items| && Ended(total, items, at, next, fails, true)
    ensures at < next && Accepted(total, items[next - 1], fails(next - 1))
  {
  }

  lemma NotTaken(total: seq<nat>, items: seq<Item>, at: nat, next: nat, fails: nat -> bool)
    requires at < |items| && at <= next <= |items| && Ended(total, items, at, next, fails, false)
    ensures !Taken(total, items, fails)
  {
    hide Accepted, Flag;
    if AllPassed(total, items, at, |items|, fails) {
      var last: nat := |items| - 1;
      assert !Flag(items[last].header, EOS);
    }
  }

  lemma SomeItems(total: seq<nat>, items: seq<Item>, i: nat, j: nat)
    requires AllItems(total, items) && i <= j <= |items|
    ensures AllItems(total, items[i..j])
  {
  }

  /** A full migration: any run of the guest and the sender from setup on, until the guest is stopped and all
      blocks are sent; then the last phase; then the receiver.  It succeeds if and only if no read of the last
      phase and no write of the receiver fails, and then the destination equals the source. */
  method Migrate(ghost start: State, ghost ts: seq<Step>, sender: Sender, receiver: Receiver, fails: nat -> bool, ghost n: nat)
    returns (ret: int)
    requires Start(start) && IsRun(start, ts) && Quiet(Outcome(start, ts))
    requires sender.total == receiver.total == start.total && |sender.curDirty| == |sender.total|
    requires sender.src == Outcome(start, ts).src && sender.dirty == Outcome(start, ts).dirty
    requires sender.stream == Outcome(start, ts).stream && sender.error == 0
    requires Successes(sender.result, sender.done, n) >= |sender.dirty|
    modifies sender, receiver
    ensures ret == 0 <==> AllRead(sender.result, old(sender.done), sender.done) && NoneFails(sender.stream, fails)
    ensures ret == 0 ==> sender.dirty == {} && forall p: Place :: start.InRange(p) ==> receiver.disk(p) == sender.src(p)
  {
    hide Start, IsRun, Outcome, Quiet, Blocks, Received, IsItem, Successes, AllRead;
    ghost var base := receiver.disk;
    forall p: Place | start.InRange(p)
      ensures ChunkOf(p) in sender.dirty || Received(Blocks(sender.stream), p, base) == sender.src(p)
    {
      QuietIsDirtyOrEqual(start, ts, base, p);
    }
    RunFits(start, ts);
    ret := sender.CompleteSave(base, n);
    if ret != 0 {
      return;
    }
    SendersIsTaken(sender.total, sender.stream, fails);
    ret := LoadAll(receiver, sender.stream, fails);
  }

  lemma RunFits(s: State, ts: seq<Step>)
    requires Start(s) && IsRun(s, ts)
    ensures forall c :: c in Outcome(s, ts).dirty ==> ChunkFits(s.total, c)
    ensures AllItems(s.total, Outcome(s, ts).stream)
  {
    StartIsSound(s, s.src);
    RunKeepsInv(s, ts, s.src);
  }
}
