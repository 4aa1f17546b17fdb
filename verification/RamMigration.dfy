/** RAM migration without XBZRLE, with a guest that writes all the while (src/arch_init.c:164-177, 265-275,
    343-407, 510-624, 667-799). */
module RamMigration {
  import opened Arith
  import opened Options

  const PAGE_SIZE := 4096  // TARGET_PAGE_SIZE

  type Page = p: seq<bv8> | |p| == PAGE_SIZE witness seq(PAGE_SIZE, _ => 0)

  /** A page of the RAM block called `id`. */
  datatype Spot = Spot(id: string, page: nat)

  datatype Sent = Sent(spot: Spot, data: Page)

  /** What page `s` holds at the destination after `sent`, over `base`. */
  function Received(sent: seq<Sent>, s: Spot, base: Spot -> Page): Page {
    if sent == [] then base(s)
    else if sent[|sent| - 1].spot == s then sent[|sent| - 1].data
    else Received(sent[..|sent| - 1], s, base)
  }

  lemma ReceivedNext(sent: seq<Sent>, x: Sent, s: Spot, base: Spot -> Page)
    ensures Received(sent + [x], s, base) == if x.spot == s then x.data else Received(sent, s, base)
  {
    assert (sent + [x])[..|sent|] == sent;
  }

  // ----- pages of one byte -----

  predicate Uniform(p: Page) {
    forall k :: 0 <= k < PAGE_SIZE ==> p[k] == p[0]
  }

  /** `is_dup_page`, with vectors of `vec` bytes */
  method IsDupPage(p: Page, vec: nat) returns (dup: bool)
    requires vec > 0 && PAGE_SIZE % vec == 0
    ensures dup <==> Uniform(p)
  {
    DivMod(PAGE_SIZE, vec);
    var val := seq(vec, _ => p[0]);
    var at := 0;
    for i := 0 to PAGE_SIZE / vec
      invariant at == i * vec
      invariant forall k :: 0 <= k < at ==> p[k] == p[0]
    {
      MulMonotone(i + 1, PAGE_SIZE / vec, vec);
      assert (i + 1) * vec == at + vec <= PAGE_SIZE;
      if p[at..at + vec] != val {
        assert exists k :: 0 <= k < vec && p[at..at + vec][k] != val[k];
        return false;
      }
      assert forall k :: at <= k < at + vec ==> p[k] == p[at..at + vec][k - at];
      at := at + vec;
    }
    return true;
  }

  // ----- the stream -----

  const COMPRESS := 0x02
  const MEM_SIZE := 0x04
  const PAGE := 0x08
  const EOS := 0x10
  const CONTINUE := 0x20
  const XBZRLE := 0x40
  const EINVAL := 22
  const EIO := 5

  /** A header of offset and flags, the name of the block unless the flags say that it is the last one again,
      and the data; for MEM_SIZE the names and lengths of the blocks. */
  datatype Item = Item(header: nat, id: string, data: seq<bv8>, list: seq<(string, nat)>)

  predicate Flag(header: nat, flag: nat)
    requires flag > 0
  {
    header % PAGE_SIZE / flag % 2 == 1
  }

  /** A page in the stream, as one byte or in full, when `last` is the block that was sent from before. */
  function ItemFor(x: Sent, dup: bool, last: Option<string>): Item {
    var cont := if last == Some(x.spot.id) then CONTINUE else 0;
    Item(x.spot.page * PAGE_SIZE + cont + if dup then COMPRESS else PAGE,
         if last == Some(x.spot.id) then "" else x.spot.id,
         if dup then [x.data[0]] else x.data, [])
  }

  function EosItem(): Item {
    Item(EOS, "", [], [])
  }

  function SizeItem(list: seq<(string, nat)>): Item {
    Item(Total(list) * PAGE_SIZE + MEM_SIZE, "", [], list)
  }

  /** Lengths are in pages. */
  function Total(list: seq<(string, nat)>): nat {
    if list == [] then 0 else list[0].1 + Total(list[1..])
  }

  /** The block that the receiver remembers after the items. */
  function LastOf(items: seq<Item>): Option<string> {
    if items == [] then None
    else
      var i, before := items[|items| - 1], LastOf(items[..|items| - 1]);
      if IsPage(i) && !Flag(i.header, CONTINUE) then Some(i.id) else before
  }

  predicate IsPage(i: Item) {
    Flag(i.header, COMPRESS) || Flag(i.header, PAGE)
  }

  /** The page that an item brings, when `last` is remembered. */
  function PageIn(i: Item, last: Option<string>): Option<Sent> {
    if !IsPage(i) || (Flag(i.header, CONTINUE) && last.None?) then None
    else
      var id := if Flag(i.header, CONTINUE) then last.value else i.id;
      if Flag(i.header, COMPRESS) then
        if |i.data| != 1 then None
        else Some(Sent(Spot(id, i.header / PAGE_SIZE), seq(PAGE_SIZE, _ => i.data[0])))
      else if |i.data| != PAGE_SIZE then None
      else Some(Sent(Spot(id, i.header / PAGE_SIZE), i.data))
  }

  /** The pages that the items bring. */
  function Pages(items: seq<Item>): seq<Sent> {
    if items == [] then []
    else
      var front := items[..|items| - 1];
      Pages(front) + match PageIn(items[|items| - 1], LastOf(front)) case None => [] case Some(x) => [x]
  }

  lemma Appended(items: seq<Item>, i: Item)
    ensures LastOf(items + [i]) == if IsPage(i) && !Flag(i.header, CONTINUE) then Some(i.id) else LastOf(items)
    ensures Pages(items + [i]) == Pages(items) + match PageIn(i, LastOf(items)) case None => [] case Some(x) => [x]
  {
    assert (items + [i])[..|items|] == items;
  }

  /** What is put in the stream for a page is taken out as that page: as one byte if it is uniform, or in full
      whether it is or not, with or without the name of its block. */
  lemma PageRoundTrip(x: Sent, dup: bool, last: Option<string>)
    requires dup ==> Uniform(x.data)
    ensures var i := ItemFor(x, dup, last);
            && PageIn(i, last) == Some(x) && IsPage(i) && !Flag(i.header, EOS) && !Flag(i.header, MEM_SIZE)
            && (Flag(i.header, CONTINUE) <==> last == Some(x.spot.id))
            && (!Flag(i.header, CONTINUE) ==> i.id == x.spot.id)
  {
    var i := ItemFor(x, dup, last);
    assert i.header / PAGE_SIZE == x.spot.page;
    if dup {
      assert x.data == seq(PAGE_SIZE, _ => x.data[0]);
    }
  }

  lemma OtherItems(list: seq<(string, nat)>)
    ensures Flag(EosItem().header, EOS) && !IsPage(EosItem()) && !Flag(EosItem().header, MEM_SIZE)
    ensures Flag(SizeItem(list).header, MEM_SIZE) && !IsPage(SizeItem(list)) && !Flag(SizeItem(list).header, EOS)
    ensures !Flag(EosItem().header, XBZRLE) && !Flag(SizeItem(list).header, XBZRLE)
  {
  }

  // ----- blocks, and streams that make sense -----

  datatype RamBlock = RamBlock(id: string, pages: nat)

  const WRAP := 0x1_0000_0000_0000_0000  // sizes in bytes are 64-bit numbers

  function ListOf(blocks: seq<RamBlock>): seq<(string, nat)> {
    seq(|blocks|, i requires 0 <= i < |blocks| => (blocks[i].id, blocks[i].pages))
  }

  /** Blocks have different names and at least one page, and their size in bytes is a number. */
  predicate GoodBlocks(blocks: seq<RamBlock>) {
    && blocks != [] && Total(ListOf(blocks)) * PAGE_SIZE < WRAP && (forall b :: 0 <= b < |blocks| ==> blocks[b].pages > 0)
    && (forall a, b :: 0 <= a < b < |blocks| ==> blocks[a].id != blocks[b].id)
  }

  predicate HasPage(blocks: seq<RamBlock>, s: Spot) {
    exists b :: 0 <= b < |blocks| && blocks[b].id == s.id && s.page < blocks[b].pages
  }

  const NULL := -1

  /** An item that the sender puts after `last`. */
  ghost predicate IsItem(blocks: seq<RamBlock>, i: Item, last: Option<string>) {
    || (exists x: Sent, dup: bool :: HasPage(blocks, x.spot) && (dup ==> Uniform(x.data)) && i == ItemFor(x, dup, last))
    || i == EosItem()
    || (exists list :: SameBlocks(blocks, list) && Total(list) * PAGE_SIZE < WRAP && i == SizeItem(list))
  }

  /** The list names blocks that are there, with their lengths. */
  predicate SameBlocks(blocks: seq<RamBlock>, list: seq<(string, nat)>) {
    forall i :: 0 <= i < |list| ==> RamBlock(list[i].0, list[i].1) in blocks
  }

  ghost predicate GoodStream(blocks: seq<RamBlock>, items: seq<Item>) {
    forall i :: 0 <= i < |items| ==> IsItem(blocks, items[i], LastOf(items[..i]))
  }

  lemma GoodNext(blocks: seq<RamBlock>, items: seq<Item>, i: Item)
    requires GoodStream(blocks, items) && IsItem(blocks, i, LastOf(items))
    ensures GoodStream(blocks, items + [i])
  {
    hide IsItem, LastOf;
    forall k | 0 <= k < |items| + 1 ensures IsItem(blocks, (items + [i])[k], LastOf((items + [i])[..k])) {
      assert (items + [i])[..k] == items[..k];
      assert items[..|items|] == items;
    }
  }

  // ----- the protocol -----

  /** A place in the list of blocks. */
  datatype Pos = Pos(block: nat, page: nat)

  /** `log`: pages in the dirty log of the accelerator, which a sync moves to the dirty bits.  `sending`: the
      page whose dirty bit has been reset and which is being looked at and copied.  `lastBlock` is a number, or
      NULL. */
  datatype State = State(blocks: seq<RamBlock>, mem: Spot -> Page, dirty: set<Spot>, log: set<Spot>,
                         sending: Option<Pos>, lastBlock: int, lastOffset: nat, stream: seq<Item>)
  {
    function SpotAt(p: Pos): Spot
      requires p.block < |blocks|
    {
      Spot(blocks[p.block].id, p.page)
    }

    predicate IsPos(p: Pos) {
      p.block < |blocks| && p.page < blocks[p.block].pages
    }

    predicate Sending(x: Spot) {
      sending.Some? && IsPos(sending.value) && SpotAt(sending.value) == x
    }

    function LastName(): Option<string> {
      if 0 <= lastBlock < |blocks| then Some(blocks[lastBlock].id) else None
    }
  }

  datatype Step =
    | GuestWrite(s: Spot, data: Page, logged: bool)
    | Sync
    | Pick(p: Pos)
    | Deliver(dup: bool, data: Page)
    | EndSection

  /** The test for a uniform page and the copy look at memory at different times.  A page that the guest writes
      meanwhile can be taken for uniform or not, and can go out as anything; but then it is dirty again. */
  ghost predicate Enabled(s: State, t: Step) {
    match t
    case GuestWrite(x, _, _) => HasPage(s.blocks, x)
    case Sync => true
    case Pick(p) => s.sending.None? && s.IsPos(p) && s.SpotAt(p) in s.dirty
    case Deliver(dup, data) =>
      && s.sending.Some? && s.IsPos(s.sending.value) && (dup ==> Uniform(data))
      && var x := s.SpotAt(s.sending.value);
         x in s.dirty + s.log || (dup == Uniform(s.mem(x)) && data == s.mem(x))
    case EndSection => s.sending.None?
  }

  ghost function Apply(s: State, t: Step): State
    requires Enabled(s, t)
  {
    match t
    case GuestWrite(x, data, logged) =>
      var w := s.(mem := y => if y == x then data else s.mem(y));
      if logged then w.(log := s.log + {x}) else w.(dirty := s.dirty + {x})
    case Sync => s.(dirty := s.dirty + s.log, log := {})
    case Pick(p) => s.(dirty := s.dirty - {s.SpotAt(p)}, sending := Some(p))
    case Deliver(dup, data) =>
      var p := s.sending.value;
      s.(sending := None, stream := s.stream + [ItemFor(Sent(s.SpotAt(p), data), dup, s.LastName())],
         lastBlock := p.block, lastOffset := p.page)
    case EndSection => s.(stream := s.stream + [EosItem()])
  }

  /** A page is dirty, or in the log, or being sent, or equal on both sides. */
  ghost predicate SafeAt(s: State, x: Spot, base: Spot -> Page) {
    HasPage(s.blocks, x) ==>
      x in s.dirty || x in s.log || s.Sending(x) || Received(Pages(s.stream), x, base) == s.mem(x)
  }

  /** The stream makes sense to a receiver, which remembers the sender's last block. */
  ghost predicate Encoded(s: State) {
    && GoodStream(s.blocks, s.stream) && LastOf(s.stream) == s.LastName()
    && (if s.lastBlock == NULL then s.lastOffset == 0 else s.lastBlock >= 0 && s.IsPos(Pos(s.lastBlock, s.lastOffset)))
  }

  /** Dirty pages are pages, and before the first page is sent all are dirty. */
  ghost predicate Marked(s: State) {
    && (forall x :: x in s.dirty || x in s.log ==> HasPage(s.blocks, x))
    && (s.sending.Some? ==> s.IsPos(s.sending.value))
    && (s.lastBlock == NULL && s.sending.None? ==> forall x :: HasPage(s.blocks, x) ==> x in s.dirty || x in s.log)
    && (s.lastBlock == NULL ==> forall x :: HasPage(s.blocks, x) ==> x in s.dirty || x in s.log || s.Sending(x))
  }

  ghost predicate Inv(s: State, base: Spot -> Page) {
    GoodBlocks(s.blocks) && Marked(s) && Encoded(s) && forall x :: SafeAt(s, x, base)
  }

  lemma KeepsSafe(s: State, t: Step, x: Spot, base: Spot -> Page)
    requires Enabled(s, t) && SafeAt(s, x, base) && Encoded(s)
    ensures SafeAt(Apply(s, t), x, base)
  {
    hide HasPage, Pages, Received, Uniform, ItemFor, GoodStream, LastOf;
    if t.Deliver? {
      var y := Sent(s.SpotAt(s.sending.value), t.data);
      PageRoundTrip(y, t.dup, s.LastName());
      Appended(s.stream, ItemFor(y, t.dup, s.LastName()));
      ReceivedNext(Pages(s.stream), y, x, base);
    } else if t.EndSection? {
      EosAdded(s.blocks, s.stream);
    }
  }

  lemma KeepsEncoded(s: State, t: Step)
    requires Enabled(s, t) && Encoded(s)
    ensures Encoded(Apply(s, t))
  {
    hide HasPage, Pages, Uniform, ItemFor, GoodStream, LastOf;
    if t.Deliver? {
      var p := s.sending.value;
      var y := Sent(s.SpotAt(p), t.data);
      PosHasPage(s, p);
      PageAdded(s.blocks, s.stream, y, t.dup);
    } else if t.EndSection? {
      EosAdded(s.blocks, s.stream);
    }
  }

  lemma PosHasPage(s: State, p: Pos)
    requires s.IsPos(p)
    ensures HasPage(s.blocks, s.SpotAt(p))
  {
  }

  lemma KeepsMarked(s: State, t: Step)
    requires Enabled(s, t) && Marked(s)
    ensures Marked(Apply(s, t))
  {
    hide HasPage, Uniform, ItemFor;
  }

  lemma StepKeepsInv(s: State, t: Step, base: Spot -> Page)
    requires Inv(s, base) && Enabled(s, t)
    ensures Inv(Apply(s, t), base) && Apply(s, t).blocks == s.blocks
  {
    hide Marked, Encoded, SafeAt, GoodBlocks, Enabled;
    KeepsMarked(s, t);
    KeepsEncoded(s, t);
    forall x ensures SafeAt(Apply(s, t), x, base) {
      KeepsSafe(s, t, x, base);
    }
    SameBlocksAfter(s, t);
  }

  lemma SameBlocksAfter(s: State, t: Step)
    requires Enabled(s, t)
    ensures Apply(s, t).blocks == s.blocks
  {
  }

  ghost predicate IsRun(s: State, ts: seq<Step>)
    decreases |ts|
  {
    ts == [] || (Enabled(s, ts[0]) && IsRun(Apply(s, ts[0]), ts[1..]))
  }

  ghost function Outcome(s: State, ts: seq<Step>): State
    requires IsRun(s, ts)
    decreases |ts|
  {
    if ts == [] then s else Outcome(Apply(s, ts[0]), ts[1..])
  }

  lemma {:induction false} RunKeepsInv(s: State, ts: seq<Step>, base: Spot -> Page)
    requires Inv(s, base) && IsRun(s, ts)
    ensures Inv(Outcome(s, ts), base) && Outcome(s, ts).blocks == s.blocks
    decreases |ts|
  {
    hide Inv, Apply, Enabled;
    if ts != [] {
      StepKeepsInv(s, ts[0], base);
      RunKeepsInv(Apply(s, ts[0]), ts[1..], base);
    }
  }

  /** After `ram_save_setup`: all dirty bits are set, and the stream has the list of blocks. */
  ghost predicate Start(s: State) {
    && GoodBlocks(s.blocks) && (forall x :: x in s.dirty <==> HasPage(s.blocks, x)) && s.log == {}
    && s.sending == None && s.lastBlock == NULL && s.lastOffset == 0
    && s.stream == [SizeItem(ListOf(s.blocks))] + [EosItem()]
  }

  lemma StartIsSound(s: State, base: Spot -> Page)
    requires Start(s)
    ensures Inv(s, base)
  {
    hide HasPage, Pages, LastOf, GoodStream;
    FirstSection(s.blocks);
  }

  /** Whatever the interleaving: what the receiver remembers after the stream is the sender's last block, and
      every continued header stands after a page of its block. */
  lemma RunIsEncoded(s: State, ts: seq<Step>)
    requires Start(s) && IsRun(s, ts)
    ensures LastOf(Outcome(s, ts).stream) == Outcome(s, ts).LastName() && GoodStream(s.blocks, Outcome(s, ts).stream)
  {
    StartIsSound(s, s.mem);
    RunKeepsInv(s, ts, s.mem);
  }

  /** When the guest is stopped and the log synced, a page is dirty or equal. */
  lemma SyncedIsDirtyOrEqual(s: State, ts: seq<Step>, base: Spot -> Page, x: Spot)
    requires Start(s) && IsRun(s, ts) && Outcome(s, ts).sending.None? && Outcome(s, ts).log == {} && HasPage(s.blocks, x)
    ensures x in Outcome(s, ts).dirty || Received(Pages(Outcome(s, ts).stream), x, base) == Outcome(s, ts).mem(x)
  {
    hide Received, Pages, HasPage;
    StartIsSound(s, base);
    RunKeepsInv(s, ts, base);
    assert SafeAt(Outcome(s, ts), x, base);
  }

  lemma PageAdded(blocks: seq<RamBlock>, items: seq<Item>, x: Sent, dup: bool)
    requires GoodStream(blocks, items) && HasPage(blocks, x.spot) && (dup ==> Uniform(x.data))
    ensures var i := ItemFor(x, dup, LastOf(items));
            GoodStream(blocks, items + [i]) && LastOf(items + [i]) == Some(x.spot.id)
  {
    hide GoodStream;
    var i := ItemFor(x, dup, LastOf(items));
    PageRoundTrip(x, dup, LastOf(items));
    Appended(items, i);
    GoodNext(blocks, items, i);
  }

  lemma EosAdded(blocks: seq<RamBlock>, items: seq<Item>)
    requires GoodStream(blocks, items)
    ensures GoodStream(blocks, items + [EosItem()]) && LastOf(items + [EosItem()]) == LastOf(items)
    ensures Pages(items + [EosItem()]) == Pages(items)
  {
    OtherItems([]);
    Appended(items, EosItem());
    GoodNext(blocks, items, EosItem());
  }

  lemma FirstSection(blocks: seq<RamBlock>)
    requires GoodBlocks(blocks)
    ensures var items := [SizeItem(ListOf(blocks))] + [EosItem()];
            GoodStream(blocks, items) && Pages(items) == [] && LastOf(items) == None
  {
    var list := ListOf(blocks);
    OtherItems(list);
    assert SameBlocks(blocks, list);
    assert [] + [SizeItem(list)] == [SizeItem(list)];
    Appended([], SizeItem(list));
    GoodNext(blocks, [], SizeItem(list));
    EosAdded(blocks, [SizeItem(list)]);
  }

  // ----- the sender with the guest stopped -----

  class Sender {
    const blocks: seq<RamBlock>
    const mem: Spot -> Page
    var dirty: set<Spot>
    var lastBlock: int    // the number of a block, or NULL
    var lastOffset: nat   // in pages
    var stream: seq<Item>

    ghost predicate Valid()
      reads this
    {
      && GoodBlocks(blocks) && (forall s :: s in dirty ==> HasPage(blocks, s))
      && (if lastBlock == NULL then lastOffset == 0
          else 0 <= lastBlock < |blocks| && lastOffset < blocks[lastBlock].pages)
      && LastOf(stream) == LastName()
    }

    /** The sender is in this state. */
    ghost predicate Matches(s: State)
      reads this
    {
      && blocks == s.blocks && mem == s.mem && dirty == s.dirty && stream == s.stream
      && lastBlock == s.lastBlock && lastOffset == s.lastOffset
    }

    function LastName(): Option<string>
      reads this
    {
      if 0 <= lastBlock < |blocks| then Some(blocks[lastBlock].id) else None
    }

    constructor (blocks: seq<RamBlock>, mem: Spot -> Page, dirty: set<Spot>)
      requires GoodBlocks(blocks) && forall s :: s in dirty ==> HasPage(blocks, s)
      ensures Valid() && this.blocks == blocks && this.mem == mem && this.dirty == dirty && lastBlock == NULL && stream == []
    {
      this.blocks, this.mem, this.dirty, lastBlock, lastOffset, stream := blocks, mem, dirty, NULL, 0, [];
    }

    /** `ram_save_setup`: every page is marked dirty; the stream starts with the list of blocks. */
    method RamSaveSetup()
      requires GoodBlocks(blocks) && forall s :: s in dirty ==> HasPage(blocks, s)
      modifies this
      ensures Valid() && lastBlock == NULL && (forall s :: s in dirty <==> HasPage(blocks, s))
      ensures lastOffset == 0 && stream == [SizeItem(ListOf(blocks))] + [EosItem()]
    {
      hide LastOf, Pages, GoodStream;
      lastBlock, lastOffset := NULL, 0;
      var list: seq<(string, nat)> := [];
      for b := 0 to |blocks|
        invariant lastBlock == NULL && lastOffset == 0 && forall s :: s in dirty ==> HasPage(blocks, s)
        invariant forall x, y: nat :: 0 <= x < b && y < blocks[x].pages ==> Spot(blocks[x].id, y) in dirty
        invariant |list| == b && forall i :: 0 <= i < b ==> list[i] == (blocks[i].id, blocks[i].pages)
      {
        for o := 0 to blocks[b].pages
          invariant lastBlock == NULL && lastOffset == 0 && forall s :: s in dirty ==> HasPage(blocks, s)
          invariant forall x, y: nat :: 0 <= x < b && y < blocks[x].pages ==> Spot(blocks[x].id, y) in dirty
          invariant forall y: nat :: y < o ==> Spot(blocks[b].id, y) in dirty
        {
          if Spot(blocks[b].id, o) !in dirty {
            assert HasPage(blocks, Spot(blocks[b].id, o));
            dirty := dirty + {Spot(blocks[b].id, o)};
          }
        }
        list := list + [(blocks[b].id, blocks[b].pages)];
      }
      AllMarked();
      assert list == ListOf(blocks);
      FirstSection(blocks);
      stream := [SizeItem(list)] + [EosItem()];
    }

    lemma AllMarked()
      requires forall x, y: nat :: 0 <= x < |blocks| && y < blocks[x].pages ==> Spot(blocks[x].id, y) in dirty
      ensures forall s :: HasPage(blocks, s) ==> s in dirty
    {
      forall s | HasPage(blocks, s) ensures s in dirty {
        var b :| 0 <= b < |blocks| && blocks[b].id == s.id && s.page < blocks[b].pages;
        assert s == Spot(blocks[b].id, s.page);
      }
    }

    /** The pages from `(b0, o0)` on that come before `(b, o)`, going round when `wrapped`, are clean. */
    ghost predicate CleanUpTo(b0: nat, o0: nat, b: nat, o: nat, wrapped: bool)
      reads this
    {
      forall x, y: nat :: 0 <= x < |blocks| && y < blocks[x].pages && Passed(b0, o0, b, o, wrapped, x, y) ==>
        Spot(blocks[x].id, y) !in dirty
    }

    /** The search of `ram_save_block`: the first dirty page from the last one on, going round all pages once.
        Without a last block it has to find one. */
    method FindDirty() returns (found: bool, block: nat, offset: nat, ghost wrapped: bool)
      requires Valid() && (lastBlock != NULL || dirty != {})
      ensures block < |blocks| && offset < blocks[block].pages
      ensures found ==> Spot(blocks[block].id, offset) in dirty
      ensures !found ==> dirty == {} && block == lastBlock && offset == lastOffset
      ensures CleanUpTo(if lastBlock == NULL then 0 else lastBlock, lastOffset, block, offset, wrapped)
    {
      block := if lastBlock == NULL then 0 else lastBlock;
      offset := lastOffset;
      ghost var b0, o0 := block, offset;
      wrapped, found := false, false;
      while true
        invariant block < |blocks| && offset < blocks[block].pages
        invariant CleanUpTo(b0, o0, block, offset, wrapped)
        invariant if wrapped then block < b0 || (block == b0 && offset <= o0)
                  else block > b0 || (block == b0 && offset >= o0)
        invariant wrapped && block == b0 && offset == o0 ==> lastBlock == NULL
        decreases !wrapped, |blocks| - block, blocks[block].pages - offset
      {
        if Spot(blocks[block].id, offset) in dirty {
          return true, block, offset, wrapped;
        }
        if wrapped && block == b0 && offset == o0 {
          AllClean(b0, o0);
        }
        StepClean(b0, o0, block, offset, wrapped);
        ghost var next := After(blocks, block, offset);
        offset := offset + 1;
        if offset >= blocks[block].pages {
          offset := 0;
          block := block + 1;
          if block == |blocks| {
            block := 0;
            wrapped := true;
          }
        }
        assert (block, offset) == next;
        if block == lastBlock && offset == lastOffset {
          AllClean(b0, o0);
          return;
        }
      }
    }

    /** Without a dirty page and without a last block the search would go on for ever: however far it has come, it
        is at a clean page and not at the last block. */
    lemma {:induction false} SearchNeverEnds(n: nat)
      requires GoodBlocks(blocks) && lastBlock == NULL && dirty == {}
      ensures var (b, o) := Walked(blocks, n);
              b < |blocks| && o < blocks[b].pages && Spot(blocks[b].id, o) !in dirty && b != lastBlock
    {
      if n > 0 {
        SearchNeverEnds(n - 1);
      }
    }

    lemma StepClean(b0: nat, o0: nat, b: nat, o: nat, wrapped: bool)
      requires GoodBlocks(blocks) && b < |blocks| && o < blocks[b].pages
      requires CleanUpTo(b0, o0, b, o, wrapped) && Spot(blocks[b].id, o) !in dirty
      ensures o + 1 < blocks[b].pages ==> CleanUpTo(b0, o0, b, o + 1, wrapped)
      ensures o + 1 == blocks[b].pages && b + 1 < |blocks| ==> CleanUpTo(b0, o0, b + 1, 0, wrapped)
      ensures o + 1 == blocks[b].pages && b + 1 == |blocks| && !wrapped ==> CleanUpTo(b0, o0, 0, 0, true)
    {
    }

    lemma AllClean(b0: nat, o0: nat)
      requires Valid() && CleanUpTo(b0, o0, b0, o0, true)
      ensures dirty == {}
    {
      forall s | HasPage(blocks, s) ensures s !in dirty {
        var b :| 0 <= b < |blocks| && blocks[b].id == s.id && s.page < blocks[b].pages;
        assert Passed(b0, o0, b0, o0, true, b, s.page);
      }
    }

    /** A page goes into the stream, as one byte when it is uniform. */
    method SendPage(block: nat, offset: nat, vec: nat) returns (bytes: int)
      requires block < |blocks| && GoodBlocks(blocks) && vec > 0 && PAGE_SIZE % vec == 0
      requires lastBlock == NULL || 0 <= lastBlock < |blocks|
      modifies this`stream
      ensures bytes > 0
      ensures var s := Spot(blocks[block].id, offset);
              stream == old(stream) + [ItemFor(Sent(s, mem(s)), Uniform(mem(s)), LastName())]
    {
      hide Uniform;
      var p := mem(Spot(blocks[block].id, offset));
      var cont := if block == lastBlock then CONTINUE else 0;
      var id := if cont != 0 then "" else blocks[block].id;
      var dup := IsDupPage(p, vec);
      if dup {
        stream := stream + [Item(offset * PAGE_SIZE + cont + COMPRESS, id, [p[0]], [])];
        bytes := 1;
      } else {
        stream := stream + [Item(offset * PAGE_SIZE + cont + PAGE, id, p, [])];
        bytes := PAGE_SIZE;
      }
    }

    /** `ram_save_block` */
    method RamSaveBlock(vec: nat) returns (bytes: int)
      requires Valid() && vec > 0 && PAGE_SIZE % vec == 0 && (lastBlock != NULL || dirty != {})
      modifies this`dirty, this`lastBlock, this`lastOffset, this`stream
      ensures Valid() && lastBlock != NULL && (bytes == -1 <==> old(dirty) == {}) && (bytes == -1 || bytes > 0)
      ensures bytes == -1 ==> stream == old(stream) && dirty == old(dirty)
      ensures bytes != -1 ==> exists s :: s in old(dirty) && dirty == old(dirty) - {s} &&
                                          stream == old(stream) + [ItemFor(Sent(s, mem(s)), Uniform(mem(s)), LastOf(old(stream)))]
    {
      hide LastOf, ItemFor;
      bytes := -1;
      var found, block, offset, _ := FindDirty();
      if found {
        var s := Spot(blocks[block].id, offset);
        dirty := dirty - {s};
        bytes := SendPage(block, offset, vec);
        PageRoundTrip(Sent(s, mem(s)), Uniform(mem(s)), LastName());
        Appended(old(stream), ItemFor(Sent(s, mem(s)), Uniform(mem(s)), LastName()));
      }
      lastBlock, lastOffset := block, offset;
    }

    /** Every page is dirty, or the stream has it. */
    ghost predicate DirtyOrSent(base: Spot -> Page)
      reads this
    {
      forall s :: HasPage(blocks, s) ==> s in dirty || Received(Pages(stream), s, base) == mem(s)
    }

    /** `ram_save_complete`, after the sync: it ends, and then the stream has everything. */
    method RamSaveComplete(vec: nat, ghost base: Spot -> Page)
      requires Valid() && vec > 0 && PAGE_SIZE % vec == 0 && (lastBlock != NULL || dirty != {}) && DirtyOrSent(base)
      requires GoodStream(blocks, stream)
      modifies this`dirty, this`lastBlock, this`lastOffset, this`stream
      ensures Valid() && dirty == {} && lastBlock != NULL && DirtyOrSent(base) && GoodStream(blocks, stream)
      ensures stream != [] && stream[|stream| - 1] == EosItem()
    {
      hide LastOf, Pages, GoodStream, Sender.DirtyOrSent, Sender.Valid;
      var bytes := 0;
      while bytes >= 0
        invariant Valid() && (lastBlock != NULL || dirty != {}) && DirtyOrSent(base)
        invariant bytes < 0 ==> dirty == {} && lastBlock != NULL
        invariant GoodStream(blocks, stream)
        decreases bytes >= 0, |dirty|
      {
        bytes := SaveOne(vec, base);
      }
      EosAdded(blocks, stream);
      label before:
      stream := stream + [EosItem()];
      SameView@before(base);
    }

    twostate lemma SameView(base: Spot -> Page)
      requires old(DirtyOrSent(base)) && old(Valid()) && dirty == old(dirty)
      requires lastBlock == old(lastBlock) && lastOffset == old(lastOffset)
      requires Pages(stream) == Pages(old(stream)) && LastOf(stream) == LastOf(old(stream))
      ensures DirtyOrSent(base) && Valid()
    {
      hide Pages, LastOf, Received;
    }

    /** One round of the loop. */
    method SaveOne(vec: nat, ghost base: Spot -> Page) returns (bytes: int)
      requires Valid() && vec > 0 && PAGE_SIZE % vec == 0 && (lastBlock != NULL || dirty != {}) && DirtyOrSent(base)
      requires GoodStream(blocks, stream)
      modifies this`dirty, this`lastBlock, this`lastOffset, this`stream
      ensures Valid() && lastBlock != NULL && DirtyOrSent(base) && GoodStream(blocks, stream)
      ensures if bytes < 0 then dirty == {} else |dirty| < |old(dirty)|
    {
      hide LastOf, ItemFor, Pages, Received, GoodStream, HasPage, Uniform;
      bytes := RamSaveBlock(vec);
      if bytes >= 0 {
        ghost var s :| s in old(dirty) && dirty == old(dirty) - {s} && stream == old(stream) + [ItemFor(Sent(s, mem(s)), Uniform(mem(s)), LastOf(old(stream)))];
        SendingHelps(old(stream), s, base);
      }
    }

    lemma SendingHelps(stream0: seq<Item>, s: Spot, base: Spot -> Page)
      requires GoodStream(blocks, stream0) && HasPage(blocks, s)
      ensures var stream1 := stream0 + [ItemFor(Sent(s, mem(s)), Uniform(mem(s)), LastOf(stream0))];
              && GoodStream(blocks, stream1)
              && forall x :: Received(Pages(stream1), x, base) == if x == s then mem(s) else Received(Pages(stream0), x, base)
    {
      var i := ItemFor(Sent(s, mem(s)), Uniform(mem(s)), LastOf(stream0));
      PageRoundTrip(Sent(s, mem(s)), Uniform(mem(s)), LastOf(stream0));
      Appended(stream0, i);
      PageAdded(blocks, stream0, Sent(s, mem(s)), Uniform(mem(s)));
      forall x ensures Received(Pages(stream0 + [i]), x, base) == if x == s then mem(s) else Received(Pages(stream0), x, base) {
        ReceivedNext(Pages(stream0), Sent(s, mem(s)), x, base);
      }
    }
  }

  /** The page after a page, going round. */
  function After(blocks: seq<RamBlock>, b: nat, o: nat): (nat, nat)
    requires b < |blocks|
  {
    if o + 1 < blocks[b].pages then (b, o + 1) else if b + 1 < |blocks| then (b + 1, 0) else (0, 0)
  }

  /** Where the search is after `n` steps from the first page. */
  function Walked(blocks: seq<RamBlock>, n: nat): (nat, nat) {
    if n == 0 then (0, 0)
    else
      var (b, o) := Walked(blocks, n - 1);
      if b < |blocks| then After(blocks, b, o) else (b, o)
  }

  predicate Passed(b0: nat, o0: nat, b: nat, o: nat, wrapped: bool, x: nat, y: nat) {
    var before := x < b || (x == b && y < o);
    var from := x > b0 || (x == b0 && y >= o0);
    if wrapped then before || from else before && from
  }

  // ----- the receiver -----

  function Countdown(left: nat, pages: nat): nat {
    (left - pages * PAGE_SIZE) % WRAP
  }

  /** The entries are blocks that are there, with their lengths, until the lengths have used up `left` bytes. */
  predicate Counted(blocks: seq<RamBlock>, left: nat, list: seq<(string, nat)>)
    decreases |list|
  {
    left == 0 ||
    (list != [] && RamBlock(list[0].0, list[0].1) in blocks && Counted(blocks, Countdown(left, list[0].1), list[1..]))
  }

  /** How many entries are read. */
  function Entries(left: nat, list: seq<(string, nat)>): nat
    decreases |list|
  {
    if left == 0 || list == [] then 0 else 1 + Entries(Countdown(left, list[0].1), list[1..])
  }

  /** A sender's list is accepted, and read to its end. */
  lemma {:induction false} SenderListCounts(blocks: seq<RamBlock>, list: seq<(string, nat)>)
    requires GoodBlocks(blocks) && SameBlocks(blocks, list) && Total(list) * PAGE_SIZE < WRAP
    ensures Counted(blocks, Total(list) * PAGE_SIZE, list) && Entries(Total(list) * PAGE_SIZE, list) == |list|
    decreases |list|
  {
    if list != [] {
      SenderListCounts(blocks, list[1..]);
      assert RamBlock(list[0].0, list[0].1) in blocks;
      assert Countdown(Total(list) * PAGE_SIZE, list[0].1) == Total(list[1..]) * PAGE_SIZE;
    }
  }

  /** What a receiver remembers that remembered `block0` before the items. */
  function Remembered(items: seq<Item>, block0: Option<string>): Option<string> {
    if LastOf(items).None? then block0 else LastOf(items)
  }

  /** A page of a sender's stream is found whatever was remembered before the stream. */
  lemma SamePage(i: Item, last: Option<string>, block0: Option<string>)
    requires PageIn(i, last).Some?
    ensures PageIn(i, if last.None? then block0 else last) == PageIn(i, last)
  {
  }

  /** The memory is what the items make of `base`. */
  ghost predicate Replayed(items: seq<Item>, base: Spot -> Page, mem: Spot -> Page) {
    forall s :: mem(s) == Received(Pages(items), s, base)
  }

  ghost predicate Stored(was: Spot -> Page, mem: Spot -> Page, x: Sent) {
    forall s :: mem(s) == if s == x.spot then x.data else was(s)
  }

  lemma ReplayPage(items: seq<Item>, i: Item, base: Spot -> Page, was: Spot -> Page, mem: Spot -> Page, x: Sent)
    requires Replayed(items, base, was) && PageIn(i, LastOf(items)) == Some(x) && Stored(was, mem, x)
    ensures Replayed(items + [i], base, mem) && LastOf(items + [i]) == Some(x.spot.id)
  {
    hide Pages, Received, LastOf, Flag;
    Appended(items, i);
    forall s ensures mem(s) == Received(Pages(items + [i]), s, base) {
      ReceivedNext(Pages(items), x, s, base);
    }
  }

  lemma ReplayOther(items: seq<Item>, i: Item, base: Spot -> Page, mem: Spot -> Page)
    requires Replayed(items, base, mem) && !IsPage(i)
    ensures Replayed(items + [i], base, mem) && LastOf(items + [i]) == LastOf(items)
  {
    Appended(items, i);
    assert Pages(items) + [] == Pages(items);
  }

  /** What the sender's items look like to the receiver. */
  lemma ItemKinds(blocks: seq<RamBlock>, i: Item, last: Option<string>)
    requires IsItem(blocks, i, last)
    ensures Flag(i.header, EOS) <==> i == EosItem()
    ensures IsPage(i) ==> PageIn(i, last).Some? && !Flag(i.header, MEM_SIZE) && !Flag(i.header, EOS)
    ensures IsPage(i) ==> HasPage(blocks, PageIn(i, last).value.spot)
    ensures IsPage(i) && Flag(i.header, CONTINUE) ==> last.Some?
    ensures !IsPage(i) ==> PageIn(i, last).None? && !Flag(i.header, XBZRLE)
    ensures Flag(i.header, MEM_SIZE) ==>
              && SameBlocks(blocks, i.list) && Total(i.list) * PAGE_SIZE < WRAP
              && i.header / PAGE_SIZE == Total(i.list)
  {
    if x: Sent, dup: bool :| HasPage(blocks, x.spot) && (dup ==> Uniform(x.data)) && i == ItemFor(x, dup, last) {
      PageRoundTrip(x, dup, last);
    } else if i == EosItem() {
      OtherItems([]);
    } else {
      var list :| SameBlocks(blocks, list) && Total(list) * PAGE_SIZE < WRAP && i == SizeItem(list);
      OtherItems(list);
    }
  }

  // ----- what the receiver takes -----

  predicate Known(blocks: seq<RamBlock>, id: string) {
    exists b :: 0 <= b < |blocks| && blocks[b].id == id
  }

  /** The block that is remembered after one more item. */
  function RecallNext(blocks: seq<RamBlock>, i: Item, block: Option<string>): Option<string> {
    if IsPage(i) && !Flag(i.header, CONTINUE) then if Known(blocks, i.id) then Some(i.id) else None
    else block
  }

  function Recall(blocks: seq<RamBlock>, items: seq<Item>, block0: Option<string>): Option<string> {
    if items == [] then block0
    else RecallNext(blocks, items[|items| - 1], Recall(blocks, items[..|items| - 1], block0))
  }

  lemma RecallMore(blocks: seq<RamBlock>, items: seq<Item>, i: Item, block0: Option<string>)
    ensures Recall(blocks, items + [i], block0) == RecallNext(blocks, i, Recall(blocks, items, block0))
  {
    assert (items + [i])[..|items|] == items;
  }

  /** The page has a place: in the remembered block if there is one, or in a block that is there. */
  predicate PageAccepted(blocks: seq<RamBlock>, i: Item, block: Option<string>) {
    && (if Flag(i.header, CONTINUE) then block.Some? else Known(blocks, i.id))
    && |i.data| == if Flag(i.header, COMPRESS) then 1 else PAGE_SIZE
  }

  predicate ListAccepted(blocks: seq<RamBlock>, i: Item) {
    var bytes := i.header / PAGE_SIZE * PAGE_SIZE;
    Counted(blocks, bytes, i.list) && Entries(bytes, i.list) == |i.list|
  }

  /** The receiver takes the item, while it remembers `block`. */
  predicate Accepted(blocks: seq<RamBlock>, i: Item, block: Option<string>) {
    && (Flag(i.header, MEM_SIZE) ==> ListAccepted(blocks, i))
    && if IsPage(i) then PageAccepted(blocks, i, block) else !Flag(i.header, XBZRLE)
  }

  ghost predicate AllPassed(blocks: seq<RamBlock>, items: seq<Item>, from: nat, to: nat, block0: Option<string>)
    requires to <= |items|
  {
    forall k: nat :: from <= k < to ==> Accepted(blocks, items[k], Recall(blocks, items[..k], block0)) && !Flag(items[k].header, EOS)
  }

  /** A section has been read from `from` on: to its end, to an item that is refused, or to the end of the stream. */
  ghost predicate Ended(blocks: seq<RamBlock>, items: seq<Item>, from: nat, next: nat, block0: Option<string>, ok: bool)
    requires from <= next <= |items|
  {
    if next > from && AllPassed(blocks, items, from, next - 1, block0) && !AllPassed(blocks, items, from, next, block0) then
      ok <==> Accepted(blocks, items[next - 1], Recall(blocks, items[..next - 1], block0))
    else !ok && next == |items| && AllPassed(blocks, items, from, next, block0)
  }

  /** The whole stream is taken: all items are accepted, and it ends with the end of a section. */
  ghost predicate Taken(blocks: seq<RamBlock>, items: seq<Item>, block0: Option<string>) {
    && (forall k: nat :: k < |items| ==> Accepted(blocks, items[k], Recall(blocks, items[..k], block0)))
    && (items == [] || Flag(items[|items| - 1].header, EOS))
  }

  lemma RecallNone(blocks: seq<RamBlock>, items: seq<Item>, block0: Option<string>)
    ensures Recall(blocks, items[..0], block0) == block0
  {
  }

  lemma NotTaken(blocks: seq<RamBlock>, items: seq<Item>, at: nat, next: nat, block0: Option<string>)
    requires at < |items| && at <= next <= |items| && Ended(blocks, items, at, next, block0, false)
    ensures !Taken(blocks, items, block0)
  {
    hide Accepted, Flag, Recall;
    if AllPassed(blocks, items, at, |items|, block0) {
      var last: nat := |items| - 1;
      assert !Flag(items[last].header, EOS);
    }
  }

  class Receiver {
    const blocks: seq<RamBlock>
    var mem: Spot -> Page
    var block: Option<string>   // the block that host_from_stream_offset remembers

    constructor (blocks: seq<RamBlock>, mem: Spot -> Page)
      ensures this.blocks == blocks && this.mem == mem && block == None
    {
      this.blocks, this.mem, block := blocks, mem, None;
    }

    /** `host_from_stream_offset` */
    method HostFromStreamOffset(i: Item) returns (host: Option<Spot>)
      modifies this`block
      ensures Flag(i.header, CONTINUE) ==> block == old(block)
      ensures Flag(i.header, CONTINUE) ==>
                host == if block.None? then None else Some(Spot(block.value, i.header / PAGE_SIZE))
      ensures !Flag(i.header, CONTINUE) ==>
                if Known(blocks, i.id)
                then block == Some(i.id) && host == Some(Spot(i.id, i.header / PAGE_SIZE))
                else block == None && host == None
    {
      var offset := i.header / PAGE_SIZE;
      if Flag(i.header, CONTINUE) {
        if block.None? {
          return None;
        }
        return Some(Spot(block.value, offset));
      }
      for b := 0 to |blocks|
        invariant forall a :: 0 <= a < b ==> blocks[a].id != i.id
      {
        if blocks[b].id == i.id {
          block := Some(i.id);
          return Some(Spot(i.id, offset));
        }
      }
      block := None;
      return None;
    }

    /** The check of the list of blocks, which is read until its lengths have used up `total` bytes. */
    method CheckBlocks(total: nat, list: seq<(string, nat)>) returns (ok: bool, used: nat)
      requires GoodBlocks(blocks)
      ensures ok <==> Counted(blocks, total, list)
      ensures ok ==> used == Entries(total, list)
    {
      var left := total;
      used := 0;
      assert list[0..] == list;
      while left != 0
        invariant used <= |list|
        invariant Counted(blocks, total, list) <==> Counted(blocks, left, list[used..])
        invariant Entries(total, list) == used + Entries(left, list[used..])
        decreases |list| - used
      {
        if used == |list| {
          return false, used;
        }
        assert list[used..][0] == list[used] && list[used..][1..] == list[used + 1..];
        var b := 0;
        while b < |blocks| && blocks[b].id != list[used].0
          invariant b <= |blocks| && forall a :: 0 <= a < b ==> blocks[a].id != list[used].0
        {
          b := b + 1;
        }
        if b == |blocks| || blocks[b].pages != list[used].1 {
          return false, used;
        }
        assert blocks[b] == RamBlock(list[used].0, list[used].1);
        left := Countdown(left, list[used].1);
        used := used + 1;
      }
      return true, used;
    }

    /** The page of an item is stored. */
    method StorePage(i: Item) returns (ok: bool)
      requires IsPage(i)
      modifies this`block, this`mem
      ensures ok <==> PageAccepted(blocks, i, old(block))
      ensures block == RecallNext(blocks, i, old(block))
      ensures ok ==> PageIn(i, old(block)).Some? && Stored(old(mem), mem, PageIn(i, old(block)).value) &&
                     block == Some(PageIn(i, old(block)).value.spot.id)
    {
      hide Flag;
      var was := mem;
      var host := HostFromStreamOffset(i);
      if host.None? {
        return false;
      }
      var spot := host.value;
      if Flag(i.header, COMPRESS) {
        if |i.data| != 1 {
          return false;
        }
        var page: Page := seq(PAGE_SIZE, _ => i.data[0]);
        mem := s => if s == spot then page else was(s);
      } else {
        if |i.data| != PAGE_SIZE {
          return false;
        }
        var page: Page := i.data;
        mem := s => if s == spot then page else was(s);
      }
      return true;
    }

    /** One item. */
    method LoadItem(i: Item) returns (ok: bool)
      requires GoodBlocks(blocks)
      modifies this`block, this`mem
      ensures ok <==> Accepted(blocks, i, old(block))
      ensures ok ==> block == RecallNext(blocks, i, old(block))
      ensures !IsPage(i) ==> mem == old(mem) && block == old(block)
      ensures ok && IsPage(i) ==>
                && PageIn(i, old(block)).Some? && Stored(old(mem), mem, PageIn(i, old(block)).value)
                && block == Some(PageIn(i, old(block)).value.spot.id)
    {
      hide Flag, PageIn, Stored, PageAccepted, Known, Counted, Entries;
      if Flag(i.header, MEM_SIZE) {
        var listed, used := CheckBlocks(i.header / PAGE_SIZE * PAGE_SIZE, i.list);
        if !listed || used != |i.list| {
          return false;
        }
      }
      if IsPage(i) {
        ok := StorePage(i);
      } else {
        ok := !Flag(i.header, XBZRLE);
      }
    }

    /** The items up to `n` have been received. */
    ghost predicate Got(items: seq<Item>, n: nat, base: Spot -> Page, block0: Option<string>)
      requires n <= |items|
      reads this
    {
      block == Remembered(items[..n], block0) && Replayed(items[..n], base, mem)
    }

    /** `ram_load`: the items up to the next EOS.  It succeeds if and only if it gets there with every item accepted.
        On a sender's stream it fails only when the EOS is missing, and it remembers the block that the sender
        last sent from. */
    method Load(items: seq<Item>, from: nat, ghost base: Spot -> Page, ghost block0: Option<string>) returns (ret: int, next: nat)
      requires from <= |items| && GoodBlocks(blocks)
      modifies this`block, this`mem
      ensures from <= next <= |items| && (ret == 0 ==> from < next)
      ensures old(block) == Recall(blocks, items[..from], block0) ==>
                && Ended(blocks, items, from, next, block0, ret == 0)
                && (ret == 0 ==> block == Recall(blocks, items[..next], block0))
      ensures GoodStream(blocks, items) && old(Got(items, from, base, block0)) ==> Got(items, next, base, block0)
      ensures GoodStream(blocks, items) && old(Got(items, from, base, block0)) && ret != 0 ==>
                next == |items| && EosItem() !in items[from..]
    {
      hide Replayed, IsItem, Flag, Pages, LastOf, PageIn, Stored, Accepted, Recall, RecallNext, IsPage;
      next := from;
      ghost var known := block == Recall(blocks, items[..from], block0);
      ghost var good := GoodStream(blocks, items) && Got(items, from, base, block0);
      while true
        invariant from <= next <= |items|
        invariant good ==> Got(items, next, base, block0) && EosItem() !in items[from..next]
        invariant known ==> block == Recall(blocks, items[..next], block0) && AllPassed(blocks, items, from, next, block0)
        decreases |items| - next
      {
        if next == |items| {
          return -EIO, next;
        }
        var i := items[next];
        ghost var before, was := items[..next], mem;
        assert items[..next + 1] == before + [i];
        assert items[from..next + 1] == items[from..next] + [i];
        RecallMore(blocks, before, i, block0);
        next := next + 1;
        if good {
          GoodAccepted(blocks, i, LastOf(before), block0);
        }
        var ok := LoadItem(i);
        if !ok {
          return -EINVAL, next;
        }
        if good {
          ReplayItem(before, i, base, was, mem, block0, block);
        }
        if Flag(i.header, EOS) {
          return 0, next;
        }
      }
    }
  }

  /** The receiver takes what a sender sends. */
  lemma GoodAccepted(blocks: seq<RamBlock>, i: Item, last: Option<string>, block0: Option<string>)
    requires GoodBlocks(blocks) && IsItem(blocks, i, last)
    ensures Accepted(blocks, i, if last.None? then block0 else last) && (Flag(i.header, EOS) <==> i == EosItem())
    ensures IsPage(i) ==> PageIn(i, last).Some? && Known(blocks, PageIn(i, last).value.spot.id)
  {
    hide Counted, Entries, SameBlocks, IsItem, Flag;
    ItemKinds(blocks, i, last);
    if Flag(i.header, MEM_SIZE) {
      SenderListCounts(blocks, i.list);
    }
  }

  lemma ReplayItem(items: seq<Item>, i: Item, base: Spot -> Page, was: Spot -> Page, mem: Spot -> Page,
                   block0: Option<string>, block: Option<string>)
    requires Replayed(items, base, was) && (IsPage(i) ==> PageIn(i, LastOf(items)).Some?)
    requires var before := Remembered(items, block0);
             if IsPage(i) then PageIn(i, before).Some? && Stored(was, mem, PageIn(i, before).value) && block == Some(PageIn(i, before).value.spot.id)
             else mem == was && block == before
    ensures Replayed(items + [i], base, mem) && block == Remembered(items + [i], block0)
  {
    hide Replayed, Pages, LastOf, Flag, Stored, PageIn, IsPage;
    if IsPage(i) {
      SamePage(i, LastOf(items), block0);
      ReplayPage(items, i, base, was, mem, PageIn(i, LastOf(items)).value);
    } else {
      ReplayOther(items, i, base, mem);
    }
  }

  // ----- the whole migration -----

  /** The receiver goes through a whole stream, section by section; it may remember a block from before. */
  method LoadAll(receiver: Receiver, items: seq<Item>) returns (ret: int)
    requires GoodBlocks(receiver.blocks)
    modifies receiver
    ensures ret == 0 <==> Taken(receiver.blocks, items, old(receiver.block))
    ensures GoodStream(receiver.blocks, items) && items != [] && items[|items| - 1] == EosItem() ==>
              && ret == 0 && receiver.block == Remembered(items, old(receiver.block))
              && Replayed(items, old(receiver.mem), receiver.mem)
  {
    hide GoodStream, Receiver.Got, Accepted, Flag, Recall;
    var at := 0;
    ret := 0;
    ghost var base, block0 := receiver.mem, receiver.block;
    ghost var good := GoodStream(receiver.blocks, items) && items != [] && items[|items| - 1] == EosItem();
    GotNothing(receiver, items);
    RecallNone(receiver.blocks, items, block0);
    while at < |items|
      invariant at <= |items| && ret == 0 && (good ==> receiver.Got(items, at, base, block0))
      invariant receiver.block == Recall(receiver.blocks, items[..at], block0)
      invariant forall k: nat :: k < at ==> Accepted(receiver.blocks, items[k], Recall(receiver.blocks, items[..k], block0))
      invariant at > 0 ==> Flag(items[at - 1].header, EOS)
    {
      var next;
      ret, next := receiver.Load(items, at, base, block0);
      if good {
        assert EosItem() in items[at..] by {
          assert items[at..][|items| - 1 - at] == EosItem();
        }
      }
      if ret != 0 {
        NotTaken(receiver.blocks, items, at, next, block0);
        return;
      }
      at := next;
    }
    if good {
      GotEverything(receiver, items, base, block0);
    }
  }

  lemma GotNothing(receiver: Receiver, items: seq<Item>)
    ensures receiver.Got(items, 0, receiver.mem, receiver.block)
  {
  }

  lemma GotEverything(receiver: Receiver, items: seq<Item>, base: Spot -> Page, block0: Option<string>)
    requires receiver.Got(items, |items|, base, block0)
    ensures receiver.block == Remembered(items, block0) && Replayed(items, base, receiver.mem)
  {
    assert items[..|items|] == items;
  }

  lemma GoodForBoth(a: seq<RamBlock>, b: seq<RamBlock>, items: seq<Item>)
    requires GoodStream(a, items) && forall x :: x in a ==> x in b
    ensures GoodStream(b, items)
  {
    forall s | HasPage(a, s) ensures HasPage(b, s) {
      var k :| 0 <= k < |a| && a[k].id == s.id && s.page < a[k].pages;
      assert a[k] in b;
      var j :| 0 <= j < |b| && b[j] == a[k];
    }
    GoodMore(a, b, items);
  }

  lemma GoodMore(a: seq<RamBlock>, b: seq<RamBlock>, items: seq<Item>)
    requires GoodStream(a, items) && (forall s :: HasPage(a, s) ==> HasPage(b, s))
    requires forall list :: SameBlocks(a, list) ==> SameBlocks(b, list)
    ensures GoodStream(b, items)
  {
    hide HasPage, SameBlocks, ItemFor, SizeItem, LastOf, Uniform;
  }

  /** A full migration: any run of the guest and the sender from setup on, until the guest is stopped and the
      dirty log synced; then the last phase; then the receiver.  The destination's RAM equals the source's,
      and the receiver remembers the block that the sender last sent from. */
  method Migrate(ghost start: State, ghost ts: seq<Step>, sender: Sender, receiver: Receiver, vec: nat) returns (ret: int)
    requires Start(start) && IsRun(start, ts) && Outcome(start, ts).sending.None? && Outcome(start, ts).log == {}
    requires sender.blocks == start.blocks && sender.Matches(Outcome(start, ts)) && vec > 0 && PAGE_SIZE % vec == 0
    requires GoodBlocks(receiver.blocks) && forall b :: b in sender.blocks ==> b in receiver.blocks
    modifies sender, receiver
    ensures ret == 0 && sender.dirty == {} && receiver.block == sender.LastName()
    ensures forall s :: HasPage(sender.blocks, s) ==> receiver.mem(s) == sender.mem(s)
  {
    hide Start, IsRun, Outcome, Pages, Received, GoodStream, HasPage, LastOf;
    ghost var base := receiver.mem;
    forall s | HasPage(sender.blocks, s)
      ensures s in sender.dirty || Received(Pages(sender.stream), s, base) == sender.mem(s)
    {
      SyncedIsDirtyOrEqual(start, ts, base, s);
    }
    LastPhaseStarts(start, ts, sender);
    sender.RamSaveComplete(vec, base);
    GoodForBoth(sender.blocks, receiver.blocks, sender.stream);
    ret := LoadAll(receiver, sender.stream);
  }

  /** The last phase finds what it needs.  In particular the search for a dirty page ends: as long as nothing has
      been sent, every page is dirty. */
  lemma LastPhaseStarts(start: State, ts: seq<Step>, sender: Sender)
    requires Start(start) && IsRun(start, ts) && Outcome(start, ts).sending.None? && Outcome(start, ts).log == {}
    requires sender.blocks == start.blocks && sender.Matches(Outcome(start, ts))
    ensures sender.Valid() && GoodStream(sender.blocks, sender.stream)
    ensures sender.lastBlock != NULL || sender.dirty != {}
  {
    StartIsSound(start, start.mem);
    RunKeepsInv(start, ts, start.mem);
    if sender.lastBlock == NULL {
      var s := Spot(sender.blocks[0].id, 0);
      assert HasPage(sender.blocks, s);
    }
  }
}
