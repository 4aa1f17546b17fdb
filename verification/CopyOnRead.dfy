/** Tracked requests and copy-on-read (src/block.c:1388-1497, 1810-1936, 1995-2049).

    A coroutine runs undisturbed between two yields, so the protocol is a machine whose steps are the
    pieces of code between yields.  The driver is a sparse map of sectors over a backing file; its
    reads, writes and allocation queries are one step each, and any of them may fail. */
module CopyOnRead {
  import opened Arith

  // ----- requests -----

  datatype Kind<D> = Read(copyOnRead: bool) | Write(data: seq<D>)

  datatype Request<D> = Request(sector: nat, nb: nat, kind: Kind<D>) {
    predicate IsCor() {
      kind.Read? && kind.copyOnRead
    }
  }

  /** A run of sectors. */
  datatype Span = Span(start: nat, nb: nat) {
    predicate Has(x: nat) {
      start <= x < start + nb
    }
  }

  function SpanOf<D>(r: Request<D>): Span {
    Span(r.sector, r.nb)
  }

  /** `QEMU_ALIGN_DOWN` and `QEMU_ALIGN_UP` */
  function AlignDown(n: nat, m: nat): nat
    requires m >= 1
  {
    n / m * m
  }

  function AlignUp(n: nat, m: nat): nat
    requires m >= 1
  {
    AlignDown(n + m - 1, m)
  }

  /** `round_to_clusters`; `c` is the cluster size in sectors, 0 when the driver does not tell. */
  function RoundToClusters(s: Span, c: nat): Span {
    if c == 0 then s
    else
      var start := AlignDown(s.start, c);
      DivMod(s.start, c);
      Span(start, AlignUp(s.start - start + s.nb, c))
  }

  /** `tracked_request_overlaps` */
  predicate Overlaps(r: Span, start: nat, nb: nat) {
    !(start >= r.start + r.nb) && !(r.start >= start + nb)
  }

  predicate SpanOverlaps(r: Span, s: Span) {
    Overlaps(r, s.start, s.nb)
  }

  ghost predicate Apart(r: Span, s: Span) {
    forall x: nat :: !(r.Has(x) && s.Has(x))
  }

  /** The first cluster that the run touches, and the one after the last. */
  function First(s: Span, c: nat): nat
    requires c >= 1
  {
    s.start / c
  }

  function After(s: Span, c: nat): nat
    requires c >= 1
  {
    (s.start + s.nb + c - 1) / c
  }

  lemma RoundedSpan(s: Span, c: nat)
    requires c >= 1
    ensures First(s, c) <= After(s, c)
    ensures RoundToClusters(s, c).start == First(s, c) * c
    ensures RoundToClusters(s, c).start + RoundToClusters(s, c).nb == After(s, c) * c
  {
    var a := First(s, c);
    var m := s.start - a * c + s.nb + c - 1;
    DivMod(s.start, c);
    DivMod(m, c);
    assert s.start + s.nb + c - 1 == (a + m / c) * c + m % c;
    DivisionIsUnique(s.start + s.nb + c - 1, c, a + m / c, m % c);
    assert (a + m / c) * c == a * c + m / c * c;
  }

  /** The rounded run covers the run. */
  lemma RoundedCovers(s: Span, c: nat, x: nat)
    requires s.Has(x)
    ensures RoundToClusters(s, c).Has(x)
  {
    if c >= 1 {
      RoundedSpan(s, c);
      DivMod(s.start, c);
      DivMod(s.start + s.nb + c - 1, c);
    }
  }

  /** Rounding one side of the overlap test is enough: runs it finds apart share no cluster. */
  lemma OneSideRounded(a: Span, b: Span, c: nat)
    requires !SpanOverlaps(a, RoundToClusters(b, c))
    ensures Apart(RoundToClusters(a, c), RoundToClusters(b, c)) && Apart(RoundToClusters(b, c), RoundToClusters(a, c))
  {
    if c >= 1 {
      RoundedSpan(a, c);
      RoundedSpan(b, c);
      if RoundToClusters(b, c).start >= a.start + a.nb {
        DivBelow(a.start + a.nb + c - 1, c, First(b, c) + 1);
        assert (First(b, c) + 1) * c == First(b, c) * c + c;
        MulMonotone(After(a, c), First(b, c), c);
      } else {
        DivBelow(a.start, c, After(b, c));
        MulMonotone(After(b, c), First(a, c), c);
      }
    }
  }

  /** And it does not find more: of two runs that are not empty, it stops those that share a cluster. */
  lemma OverlapSharesCluster(a: Span, b: Span, c: nat)
    requires a.nb > 0 && b.nb > 0 && SpanOverlaps(a, RoundToClusters(b, c))
    ensures !Apart(RoundToClusters(a, c), RoundToClusters(b, c))
  {
    var r := RoundToClusters(b, c);
    var x := if a.start < r.start then r.start else a.start;
    assert a.Has(x) && r.Has(x);
    RoundedCovers(a, c, x);
  }

  // ----- the list of tracked requests -----

  /** The `QLIST_FOREACH` of `wait_for_overlapping_requests`: the first tracked request that overlaps. */
  method FirstOverlap(tracked: seq<Span>, s: Span, c: nat) returns (k: nat)
    ensures k <= |tracked|
    ensures k < |tracked| ==> SpanOverlaps(tracked[k], RoundToClusters(s, c))
    ensures forall i :: 0 <= i < k ==> Apart(RoundToClusters(tracked[i], c), RoundToClusters(s, c))
  {
    var r := RoundToClusters(s, c);
    k := 0;
    while k < |tracked|
      invariant k <= |tracked|
      invariant forall i :: 0 <= i < k ==> Apart(RoundToClusters(tracked[i], c), r)
    {
      if SpanOverlaps(tracked[k], r) {
        return;
      }
      OneSideRounded(tracked[k], s, c);
      k := k + 1;
    }
  }

  // ----- the state -----

  type Id = nat

  datatype Phase<D> =
    | Waiting(on: Id)             // queued on a tracked request
    | Scanning                    // about to look for overlapping requests, for the first time or again
    | Tracked                     // in the list; the next thing is driver I/O
    | Plain                       // copy-on-read was found unnecessary
    | Copying                     // copy-on-read was found necessary
    | Bounced(buffer: seq<D>)     // the clusters are in the bounce buffer
    | Finished(result: Result<D>) // driver I/O is over; the request is still in the list

  datatype Result<D> = Done | Data(data: seq<D>) | Error

  datatype Entry<D> = Entry(req: Request<D>, phase: Phase<D>) {
    predicate InList() {
      !phase.Waiting? && !phase.Scanning?
    }
  }

  datatype State<!D> = State(cluster: nat, inFlight: nat, reqs: map<Id, Entry<D>>, top: map<nat, D>, backing: nat -> D) {
    /** The guest-visible contents of sector `x`. */
    function View(x: nat): D {
      if x in top then top[x] else backing(x)
    }

    function ViewOf(s: Span): seq<D> {
      seq(s.nb, i requires 0 <= i => View(s.start + i))
    }

    function Clusters(id: Id): Span
      requires id in reqs
    {
      RoundToClusters(SpanOf(reqs[id].req), cluster)
    }

    predicate Tracks(id: Id) {
      id in reqs && reqs[id].InList()
    }

    function Goto(id: Id, p: Phase<D>): State<D>
      requires id in reqs
    {
      this.(reqs := reqs[id := reqs[id].(phase := p)])
    }
  }

  // ----- the steps -----

  datatype Step<D> =
    | Enter(id: Id, req: Request<D>)
    | Scan(id: Id, on: Id)                             // `on`: the overlapping request found, or `id` for none
    | Query(id: Id, copy: bool, ok: bool)              // bdrv_co_is_allocated
    | CopyIn(id: Id, ok: bool)                         // the driver reads the clusters
    | CopyOut(id: Id, written: set<nat>, ok: bool)     // the driver writes them back
    | DriverRead(id: Id, ok: bool)
    | GuestWrite(id: Id, written: set<nat>, ok: bool)  // the driver writes the guest's data
    | Leave(id: Id)

  /** The sectors of a run that a driver write reached, with their new contents.  A write that fails
      may have reached any of them. */
  function Stored<D>(s: Span, data: seq<D>, written: set<nat>): map<nat, D>
    requires |data| == s.nb
  {
    map x | x in written && s.Has(x) :: data[x - s.start]
  }

  ghost predicate Whole(s: Span, written: set<nat>) {
    forall x: nat :: s.Has(x) ==> x in written
  }

  ghost predicate Enabled<D>(s: State<D>, t: Step<D>) {
    match t
    case Enter(id, req) => id !in s.reqs && (req.kind.Write? ==> |req.kind.data| == req.nb)
    case Scan(id, on) =>
      && id in s.reqs && s.reqs[id].phase.Scanning?
      && if on == id then forall j :: s.Tracks(j) ==> !SpanOverlaps(SpanOf(s.reqs[j].req), s.Clusters(id))
         else s.Tracks(on) && SpanOverlaps(SpanOf(s.reqs[on].req), s.Clusters(id))
    case Query(id, copy, ok) =>
      && id in s.reqs && s.reqs[id].phase.Tracked? && s.reqs[id].req.IsCor()
      && (ok && !copy ==> forall x: nat :: SpanOf(s.reqs[id].req).Has(x) ==> x in s.top)
    case CopyIn(id, ok) => id in s.reqs && s.reqs[id].phase.Copying?
    case CopyOut(id, written, ok) =>
      && id in s.reqs && s.reqs[id].phase.Bounced? && |s.reqs[id].phase.buffer| == s.Clusters(id).nb
      && (ok ==> Whole(s.Clusters(id), written))
    case DriverRead(id, ok) =>
      && id in s.reqs && s.reqs[id].req.kind.Read?
      && (s.reqs[id].phase.Plain? || (s.reqs[id].phase.Tracked? && !s.reqs[id].req.IsCor()))
    case GuestWrite(id, written, ok) =>
      && id in s.reqs && s.reqs[id].phase.Tracked? && s.reqs[id].req.kind.Write?
      && |s.reqs[id].req.kind.data| == s.reqs[id].req.nb && (ok ==> Whole(SpanOf(s.reqs[id].req), written))
    case Leave(id) => id in s.reqs && s.reqs[id].phase.Finished?
  }

  /** `nb` sectors of the bounce buffer, from the sector asked for. */
  function Slice<D>(s: State<D>, id: Id, buffer: seq<D>): seq<D>
    requires id in s.reqs && |buffer| == s.Clusters(id).nb
  {
    SliceFits(SpanOf(s.reqs[id].req), s.cluster);
    var skip := s.reqs[id].req.sector - s.Clusters(id).start;
    buffer[skip..skip + s.reqs[id].req.nb]
  }

  lemma SliceFits(s: Span, c: nat)
    ensures RoundToClusters(s, c).start <= s.start
    ensures s.start + s.nb <= RoundToClusters(s, c).start + RoundToClusters(s, c).nb
  {
    if c >= 1 {
      RoundedSpan(s, c);
      DivMod(s.start, c);
      DivMod(s.start + s.nb + c - 1, c);
    }
  }

  function Bit(b: bool): nat { if b then 1 else 0 }

  /** When `gone` leaves the list, those queued on it look again. */
  function Woken<D>(reqs: map<Id, Entry<D>>, gone: Id): map<Id, Entry<D>> {
    map j | j in reqs && j != gone :: if reqs[j].phase == Waiting(gone) then reqs[j].(phase := Scanning) else reqs[j]
  }

  ghost function Apply<D>(s: State<D>, t: Step<D>): State<D>
    requires Enabled(s, t)
  {
    match t
    case Enter(id, req) =>
      var n := s.inFlight + Bit(req.IsCor());
      s.(inFlight := n, reqs := s.reqs[id := Entry(req, if n > 0 then Scanning else Tracked)])
    case Scan(id, on) => s.Goto(id, if on == id then Tracked else Waiting(on))
    case Query(id, copy, ok) => s.Goto(id, if !ok then Finished(Error) else if copy then Copying else Plain)
    case CopyIn(id, ok) => s.Goto(id, if ok then Bounced(s.ViewOf(s.Clusters(id))) else Finished(Error))
    case CopyOut(id, written, ok) =>
      var buffer := s.reqs[id].phase.buffer;
      s.Goto(id, Finished(if ok then Data(Slice(s, id, buffer)) else Error))
       .(top := s.top + Stored(s.Clusters(id), buffer, written))
    case DriverRead(id, ok) => s.Goto(id, Finished(if ok then Data(s.ViewOf(SpanOf(s.reqs[id].req))) else Error))
    case GuestWrite(id, written, ok) =>
      var req := s.reqs[id].req;
      s.Goto(id, Finished(if ok then Done else Error)).(top := s.top + Stored(SpanOf(req), req.kind.data, written))
    case Leave(id) =>
      s.(inFlight := if s.inFlight >= Bit(s.reqs[id].req.IsCor()) then s.inFlight - Bit(s.reqs[id].req.IsCor()) else 0,
         reqs := Woken(s.reqs, id))
  }

  // ----- what every step keeps -----

  ghost function CorIds<D>(s: State<D>): set<Id> {
    set id | id in s.reqs && s.reqs[id].req.IsCor()
  }

  ghost predicate Counted<D>(s: State<D>) {
    s.inFlight == |CorIds(s)|
  }

  /** While a copy-on-read request is in the list, no other one there touches any of its clusters. */
  ghost predicate Exclusive<D>(s: State<D>) {
    forall a, b :: s.Tracks(a) && s.Tracks(b) && a != b && s.reqs[a].req.IsCor() ==> Apart(s.Clusters(a), s.Clusters(b))
  }

  /** Requests wait only on requests in the list, which do not wait themselves. */
  ghost predicate Waits<D>(s: State<D>) {
    forall id :: id in s.reqs && s.reqs[id].phase.Waiting? ==> s.Tracks(s.reqs[id].phase.on)
  }

  ghost predicate Shows<D>(s: State<D>, span: Span, data: seq<D>) {
    |data| == span.nb && forall i :: 0 <= i < span.nb ==> data[i] == s.View(span.start + i)
  }

  /** What a copy-on-read request has read is still what the guest would read. */
  ghost predicate UpToDate<D>(s: State<D>) {
    forall id :: id in s.reqs ==>
      && (s.reqs[id].phase.Bounced? ==> s.reqs[id].req.IsCor() && Shows(s, s.Clusters(id), s.reqs[id].phase.buffer))
      && (s.reqs[id].phase.Copying? || s.reqs[id].phase.Plain? ==> s.reqs[id].req.IsCor())
      && (s.reqs[id].req.IsCor() && s.reqs[id].phase.Finished? && s.reqs[id].phase.result.Data? ==>
            Shows(s, SpanOf(s.reqs[id].req), s.reqs[id].phase.result.data))
      && (s.reqs[id].req.kind.Write? ==> |s.reqs[id].req.kind.data| == s.reqs[id].req.nb)
  }

  ghost predicate Inv<D>(s: State<D>) {
    Counted(s) && Exclusive(s) && Waits(s) && UpToDate(s)
  }

  /** Every step but the first and the last of a request changes that request's phase and nothing else
      about the list. */
  ghost predicate OnlyPhase<D>(s: State<D>, s': State<D>, id: Id) {
    && s'.cluster == s.cluster && s'.inFlight == s.inFlight && s'.reqs.Keys == s.reqs.Keys
    && id in s.reqs && s'.reqs[id].req == s.reqs[id].req
    && forall j :: j in s.reqs && j != id ==> s'.reqs[j] == s.reqs[j]
  }

  lemma ChangesPhase<D>(s: State<D>, t: Step<D>)
    requires Enabled(s, t) && !t.Enter? && !t.Leave?
    ensures OnlyPhase(s, Apply(s, t), t.id)
    ensures !t.Scan? ==> s.Tracks(t.id) && Apply(s, t).Tracks(t.id)
  {
  }

  lemma KeepsCounted<D>(s: State<D>, t: Step<D>)
    requires Enabled(s, t) && Counted(s)
    ensures Counted(Apply(s, t))
  {
    hide Apply, Enabled, Counted;
    if t.Enter? {
      EnterCount(s, t);
    } else if t.Leave? {
      LeaveCount(s, t);
    } else {
      SameCount(s, t);
    }
  }

  lemma EnterCount<D>(s: State<D>, t: Step<D>)
    requires Enabled(s, t) && Counted(s) && t.Enter?
    ensures Counted(Apply(s, t))
  {
    hide CorIds;
    var s' := Apply(s, t);
    CorAdded(s, s', t.id, s'.reqs[t.id]);
  }

  lemma CorAdded<D>(s: State<D>, s': State<D>, id: Id, e: Entry<D>)
    requires id !in s.reqs && s'.reqs == s.reqs[id := e]
    ensures |CorIds(s')| == |CorIds(s)| + Bit(e.req.IsCor())
  {
    assert CorIds(s') == if e.req.IsCor() then CorIds(s) + {id} else CorIds(s);
  }

  lemma LeaveCount<D>(s: State<D>, t: Step<D>)
    requires Enabled(s, t) && Counted(s) && t.Leave?
    ensures Counted(Apply(s, t))
  {
    assert t.id in CorIds(s) <==> s.reqs[t.id].req.IsCor();
    assert CorIds(Apply(s, t)) == CorIds(s) - {t.id};
  }

  lemma SameCount<D>(s: State<D>, t: Step<D>)
    requires Enabled(s, t) && Counted(s) && !t.Enter? && !t.Leave?
    ensures Counted(Apply(s, t))
  {
    hide Apply, Enabled;
    ChangesPhase(s, t);
    assert CorIds(Apply(s, t)) == CorIds(s);
  }

  lemma KeepsExclusive<D>(s: State<D>, t: Step<D>)
    requires Enabled(s, t) && Counted(s) && Exclusive(s)
    ensures Exclusive(Apply(s, t))
  {
    if t.Enter? {
      EnterExclusive(s, t);
    } else if t.Leave? {
      LeaveExclusive(s, t);
    } else if t.Scan? && t.on == t.id {
      ScanExclusive(s, t);
    } else {
      StayExclusive(s, t);
    }
  }

  lemma EnterExclusive<D>(s: State<D>, t: Step<D>)
    requires Enabled(s, t) && Counted(s) && Exclusive(s) && t.Enter?
    ensures Exclusive(Apply(s, t))
  {
    hide Apart, RoundToClusters;
    var s' := Apply(s, t);
    if s'.inFlight == 0 {
      assert CorIds(s) == {};
      forall a | s'.Tracks(a) ensures !s'.reqs[a].req.IsCor() {
        assert a !in CorIds(s);
      }
    } else {
      assert forall a :: s'.Tracks(a) ==> s.Tracks(a) && s'.reqs[a] == s.reqs[a];
    }
  }

  lemma LeaveExclusive<D>(s: State<D>, t: Step<D>)
    requires Enabled(s, t) && Exclusive(s) && t.Leave?
    ensures Exclusive(Apply(s, t))
  {
    hide Apart, RoundToClusters;
    var s' := Apply(s, t);
    assert forall a :: s'.Tracks(a) ==> s.Tracks(a) && s'.reqs[a].req == s.reqs[a].req;
  }

  lemma ScanExclusive<D>(s: State<D>, t: Step<D>)
    requires Enabled(s, t) && Exclusive(s) && t.Scan? && t.on == t.id
    ensures Exclusive(Apply(s, t))
  {
    hide Apart, RoundToClusters;
    var s' := Apply(s, t);
    assert forall a :: s'.Tracks(a) && a != t.id ==> s.Tracks(a) && s'.reqs[a] == s.reqs[a];
    forall a | s.Tracks(a)
      ensures Apart(s.Clusters(a), s.Clusters(t.id)) && Apart(s.Clusters(t.id), s.Clusters(a))
    {
      OneSideRounded(SpanOf(s.reqs[a].req), SpanOf(s.reqs[t.id].req), s.cluster);
    }
  }

  lemma StayExclusive<D>(s: State<D>, t: Step<D>)
    requires Enabled(s, t) && Exclusive(s) && !t.Enter? && !t.Leave? && (t.Scan? ==> t.on != t.id)
    ensures Exclusive(Apply(s, t))
  {
    var s' := Apply(s, t);
    assert t.Scan? ==> !s'.Tracks(t.id);
    StaysExclusive(s, t);
  }

  lemma StaysExclusive<D>(s: State<D>, t: Step<D>)
    requires Enabled(s, t) && Exclusive(s) && !t.Enter? && !t.Leave? && (t.Scan? ==> !Apply(s, t).Tracks(t.id))
    ensures Exclusive(Apply(s, t))
  {
    hide Apply, Enabled, Apart, RoundToClusters;
    ChangesPhase(s, t);
    var s' := Apply(s, t);
    assert forall a :: s'.Tracks(a) ==> s.Tracks(a) && s'.reqs[a].req == s.reqs[a].req;
  }

  lemma KeepsWaits<D>(s: State<D>, t: Step<D>)
    requires Enabled(s, t) && Waits(s)
    ensures Waits(Apply(s, t))
  {
    var s' := Apply(s, t);
    forall id | id in s'.reqs && s'.reqs[id].phase.Waiting? ensures s'.Tracks(s'.reqs[id].phase.on) {
      if t.Scan? && t.id == id {
        assert s.Tracks(t.on) && t.on != id;
      } else {
        assert id in s.reqs && s.reqs[id].phase == s'.reqs[id].phase;
      }
    }
  }

  // ----- the guest's view -----

  /** What a step writes on behalf of the guest. */
  ghost function Effect<D>(s: State<D>, t: Step<D>): map<nat, D>
    requires Enabled(s, t)
  {
    match t
    case GuestWrite(id, written, ok) => Stored(SpanOf(s.reqs[id].req), s.reqs[id].req.kind.data, written)
    case _ => map[]
  }

  /** The guest-visible contents change at guest writes only, and there by the guest's data. */
  lemma OnlyGuestWritesShow<D>(s: State<D>, t: Step<D>, x: nat)
    requires Enabled(s, t) && UpToDate(s)
    ensures Apply(s, t).View(x) == if x in Effect(s, t) then Effect(s, t)[x] else s.View(x)
  {
    if t.CopyOut? {
      var span := s.Clusters(t.id);
      var buffer := s.reqs[t.id].phase.buffer;
      assert Shows(s, span, buffer);
      if x in Stored(span, buffer, t.written) {
        assert buffer[x - span.start] == s.View(span.start + (x - span.start));
      }
    }
  }

  /** A guest write leaves the clusters of every copy-on-read request in the list alone. */
  lemma WriteIsElsewhere<D>(s: State<D>, t: Step<D>, id: Id, x: nat)
    requires Enabled(s, t) && Exclusive(s) && UpToDate(s)
    requires s.Tracks(id) && s.reqs[id].req.IsCor() && s.Clusters(id).Has(x)
    ensures Apply(s, t).View(x) == s.View(x)
  {
    hide Apply;
    OnlyGuestWritesShow(s, t, x);
    if t.GuestWrite? {
      GuestIsElsewhere(s, t, id, x);
    }
  }

  lemma GuestIsElsewhere<D>(s: State<D>, t: Step<D>, id: Id, x: nat)
    requires Enabled(s, t) && Exclusive(s) && t.GuestWrite?
    requires s.Tracks(id) && s.reqs[id].req.IsCor() && s.Clusters(id).Has(x)
    ensures !SpanOf(s.reqs[t.id].req).Has(x)
  {
    hide Apply, RoundToClusters;
    assert Apart(s.Clusters(id), s.Clusters(t.id));
    if SpanOf(s.reqs[t.id].req).Has(x) {
      RoundedCovers(SpanOf(s.reqs[t.id].req), s.cluster, x);
    }
  }

  lemma StillShows<D>(s: State<D>, t: Step<D>, id: Id, span: Span, data: seq<D>)
    requires Enabled(s, t) && Exclusive(s) && UpToDate(s)
    requires s.Tracks(id) && s.reqs[id].req.IsCor() && Shows(s, span, data)
    requires span == s.Clusters(id) || span == SpanOf(s.reqs[id].req)
    ensures Shows(Apply(s, t), span, data)
  {
    forall i | 0 <= i < span.nb ensures data[i] == Apply(s, t).View(span.start + i) {
      if span == SpanOf(s.reqs[id].req) {
        RoundedCovers(span, s.cluster, span.start + i);
      }
      WriteIsElsewhere(s, t, id, span.start + i);
    }
  }

  lemma SliceShows<D>(s: State<D>, id: Id, buffer: seq<D>)
    requires id in s.reqs && Shows(s, s.Clusters(id), buffer)
    ensures Shows(s, SpanOf(s.reqs[id].req), Slice(s, id, buffer))
  {
    SliceFits(SpanOf(s.reqs[id].req), s.cluster);
    var skip := s.reqs[id].req.sector - s.Clusters(id).start;
    forall i | 0 <= i < s.reqs[id].req.nb ensures Slice(s, id, buffer)[i] == s.View(s.reqs[id].req.sector + i) {
      assert buffer[skip + i] == s.View(s.Clusters(id).start + (skip + i));
    }
  }

  lemma KeepsUpToDate<D>(s: State<D>, t: Step<D>)
    requires Enabled(s, t) && Exclusive(s) && UpToDate(s)
    ensures UpToDate(Apply(s, t))
  {
    hide RoundToClusters, Slice, Stored, Exclusive;
    var s' := Apply(s, t);
    forall id | id in s'.reqs && s'.reqs[id].phase.Bounced?
      ensures s'.reqs[id].req.IsCor() && Shows(s', s'.Clusters(id), s'.reqs[id].phase.buffer)
    {
      if t.CopyIn? && t.id == id {
        assert forall x: nat :: s'.View(x) == s.View(x);
      } else {
        StillShows(s, t, id, s.Clusters(id), s.reqs[id].phase.buffer);
      }
    }
    forall id | id in s'.reqs && s'.reqs[id].req.IsCor() && s'.reqs[id].phase.Finished? && s'.reqs[id].phase.result.Data?
      ensures Shows(s', SpanOf(s'.reqs[id].req), s'.reqs[id].phase.result.data)
    {
      if t.CopyOut? && t.id == id {
        SliceShows(s, id, s.reqs[id].phase.buffer);
        StillShows(s, t, id, SpanOf(s.reqs[id].req), Slice(s, id, s.reqs[id].phase.buffer));
      } else if t.DriverRead? && t.id == id {
        assert forall x: nat :: s'.View(x) == s.View(x);
      } else {
        StillShows(s, t, id, SpanOf(s.reqs[id].req), s.reqs[id].phase.result.data);
      }
    }
  }

  lemma StepKeepsInv<D>(s: State<D>, t: Step<D>)
    requires Inv(s) && Enabled(s, t)
    ensures Inv(Apply(s, t))
  {
    hide Counted, Exclusive, Waits, UpToDate, Enabled, Apply;
    KeepsCounted(s, t);
    KeepsExclusive(s, t);
    KeepsWaits(s, t);
    KeepsUpToDate(s, t);
  }

  // ----- whole runs -----

  ghost predicate IsRun<D>(s: State<D>, ts: seq<Step<D>>)
    decreases |ts|
  {
    ts == [] || (Enabled(s, ts[0]) && IsRun(Apply(s, ts[0]), ts[1..]))
  }

  ghost function Outcome<D>(s: State<D>, ts: seq<Step<D>>): State<D>
    requires IsRun(s, ts)
    decreases |ts|
  {
    if ts == [] then s else Outcome(Apply(s, ts[0]), ts[1..])
  }

  /** The guest writes of a run, in order, each as the sectors it reached. */
  ghost function GuestWrites<D>(s: State<D>, ts: seq<Step<D>>): seq<map<nat, D>>
    requires IsRun(s, ts)
    decreases |ts|
  {
    if ts == [] then [] else [Effect(s, ts[0])] + GuestWrites(Apply(s, ts[0]), ts[1..])
  }

  /** The last of the writes that reached `x`; `before` when none did. */
  ghost function LastWritten<D>(writes: seq<map<nat, D>>, x: nat, before: D): D {
    if writes == [] then before
    else LastWritten(writes[1..], x, if x in writes[0] then writes[0][x] else before)
  }

  /** In every interleaving, the guest sees its own writes and nothing of the copying; and the
      invariant holds at the end of every run, so at every point of it. */
  lemma {:induction false} RunIsTransparent<D>(s: State<D>, ts: seq<Step<D>>, x: nat)
    requires Inv(s) && IsRun(s, ts)
    ensures Inv(Outcome(s, ts))
    ensures Outcome(s, ts).View(x) == LastWritten(GuestWrites(s, ts), x, s.View(x))
    decreases |ts|
  {
    hide Inv, Enabled, Apply, Effect;
    if ts != [] {
      var s' := Apply(s, ts[0]);
      StepKeepsInv(s, ts[0]);
      RunIsTransparent(s', ts[1..], x);
      InvUpToDate(s);
      OnlyGuestWritesShow(s, ts[0], x);
      assert GuestWrites(s, ts)[1..] == GuestWrites(s', ts[1..]);
    }
  }

  lemma InvUpToDate<D>(s: State<D>)
    requires Inv(s)
    ensures UpToDate(s)
  {
  }

  predicate Idle<D>(s: State<D>) {
    s.reqs == map[] && s.inFlight == 0
  }

  /** From an idle device: what a copy-on-read request hands back at the end of any run is what the
      guest's own writes say its sectors hold. */
  lemma CopyOnReadReturnsTheView<D>(s: State<D>, ts: seq<Step<D>>, id: Id, i: nat)
    requires Idle(s) && IsRun(s, ts)
    requires id in Outcome(s, ts).reqs && Outcome(s, ts).reqs[id].req.IsCor()
    requires Outcome(s, ts).reqs[id].phase.Finished? && Outcome(s, ts).reqs[id].phase.result.Data?
    requires i < Outcome(s, ts).reqs[id].req.nb
    ensures var e := Outcome(s, ts).reqs[id];
            && |e.phase.result.data| == e.req.nb
            && e.phase.result.data[i] ==
               LastWritten(GuestWrites(s, ts), e.req.sector + i, s.View(e.req.sector + i))
  {
    hide IsRun, Outcome, GuestWrites, LastWritten, Enabled, Apply;
    var s' := Outcome(s, ts);
    IdleIsSound(s);
    RunIsTransparent(s, ts, s'.reqs[id].req.sector + i);
    assert Shows(s', SpanOf(s'.reqs[id].req), s'.reqs[id].phase.result.data);
  }

  lemma IdleIsSound<D>(s: State<D>)
    requires Idle(s)
    ensures Inv(s)
  {
    assert CorIds(s) == {};
  }

  /** From an idle device, in every interleaving: while a copy-on-read request is in the list, no other request
      in the list touches any of its clusters. */
  lemma RunKeepsClustersApart<D>(s: State<D>, ts: seq<Step<D>>, a: Id, b: Id, x: nat)
    requires Idle(s) && IsRun(s, ts) && a != b
    requires Outcome(s, ts).Tracks(a) && Outcome(s, ts).Tracks(b) && Outcome(s, ts).reqs[a].req.IsCor()
    ensures !(Outcome(s, ts).Clusters(a).Has(x) && Outcome(s, ts).Clusters(b).Has(x))
  {
    hide IsRun, Outcome, GuestWrites, LastWritten, Enabled, Apply, RoundToClusters;
    IdleIsSound(s);
    RunIsTransparent(s, ts, 0);
    assert Apart(Outcome(s, ts).Clusters(a), Outcome(s, ts).Clusters(b));
  }

  /** From an idle device, in every interleaving: a request waits on one in the list, and that one does not wait;
      so no chain of waiting requests is longer than one, and there is no cycle. */
  lemma RunHasNoWaitCycle<D>(s: State<D>, ts: seq<Step<D>>, id: Id)
    requires Idle(s) && IsRun(s, ts) && id in Outcome(s, ts).reqs && Outcome(s, ts).reqs[id].phase.Waiting?
    ensures var on := Outcome(s, ts).reqs[id].phase.on;
            on != id && Outcome(s, ts).Tracks(on) && !Outcome(s, ts).reqs[on].phase.Waiting?
  {
    hide IsRun, Outcome, GuestWrites, LastWritten, Enabled, Apply;
    IdleIsSound(s);
    RunIsTransparent(s, ts, 0);
  }

  // ----- what the image gains -----

  /** No step takes a sector out of the image or changes the backing file; what is new lies in the clusters that
      are copied, or in what the guest writes. */
  lemma TopGrows<D>(s: State<D>, t: Step<D>)
    requires Enabled(s, t)
    ensures s.top.Keys <= Apply(s, t).top.Keys && Apply(s, t).backing == s.backing
    ensures forall x: nat :: x in Apply(s, t).top && x !in s.top ==>
              || (t.CopyOut? && s.Clusters(t.id).Has(x))
              || (t.GuestWrite? && SpanOf(s.reqs[t.id].req).Has(x))
  {
    hide RoundToClusters, Slice;
  }

  /** The image holds all the sectors of the run. */
  ghost predicate Holds<D>(s: State<D>, span: Span) {
    forall x: nat :: span.Has(x) ==> x in s.top
  }

  /** The image holds the sectors of every copy-on-read request that is done, or that was found to need no
      copying. */
  ghost predicate Populated<D>(s: State<D>) {
    forall id :: id in s.reqs && Allocated(s.reqs[id]) ==> Holds(s, SpanOf(s.reqs[id].req))
  }

  predicate Allocated<D>(e: Entry<D>) {
    e.req.IsCor() && (e.phase.Plain? || (e.phase.Finished? && e.phase.result.Data?))
  }

  /** A copy that succeeds puts all the clusters into the image, with what the guest sees there. */
  lemma CopyOutPopulates<D>(s: State<D>, t: Step<D>)
    requires Enabled(s, t) && UpToDate(s) && t.CopyOut? && t.ok
    ensures Holds(Apply(s, t), s.Clusters(t.id)) && Holds(Apply(s, t), SpanOf(s.reqs[t.id].req))
    ensures forall x: nat :: s.Clusters(t.id).Has(x) ==> x in Apply(s, t).top && Apply(s, t).top[x] == s.View(x)
  {
    hide RoundToClusters, Slice;
    var span, buffer := s.Clusters(t.id), s.reqs[t.id].phase.buffer;
    assert Shows(s, span, buffer);
    forall x: nat | span.Has(x) ensures x in Apply(s, t).top && Apply(s, t).top[x] == s.View(x) {
      assert x in Stored(span, buffer, t.written);
      assert buffer[x - span.start] == s.View(span.start + (x - span.start));
    }
    forall x: nat | SpanOf(s.reqs[t.id].req).Has(x) ensures x in Apply(s, t).top {
      RoundedCovers(SpanOf(s.reqs[t.id].req), s.cluster, x);
    }
  }

  lemma KeepsPopulated<D>(s: State<D>, t: Step<D>)
    requires Enabled(s, t) && UpToDate(s) && Populated(s)
    ensures Populated(Apply(s, t))
  {
    hide RoundToClusters, Slice, Stored, UpToDate;
    var s' := Apply(s, t);
    TopGrows(s, t);
    forall id | id in s'.reqs && Allocated(s'.reqs[id])
      ensures Holds(s', SpanOf(s'.reqs[id].req))
    {
      if t.CopyOut? && t.id == id {
        CopyOutPopulates(s, t);
      } else {
        assert Holds(s, SpanOf(s.reqs[id].req));
      }
    }
  }

  lemma {:induction false} RunPopulates<D>(s: State<D>, ts: seq<Step<D>>)
    requires Inv(s) && Populated(s) && IsRun(s, ts)
    ensures Populated(Outcome(s, ts)) && Inv(Outcome(s, ts))
    ensures s.top.Keys <= Outcome(s, ts).top.Keys && Outcome(s, ts).backing == s.backing
    decreases |ts|
  {
    hide Inv, Enabled, Apply, Populated;
    if ts != [] {
      var s' := Apply(s, ts[0]);
      StepKeepsInv(s, ts[0]);
      InvUpToDate(s);
      KeepsPopulated(s, ts[0]);
      TopGrows(s, ts[0]);
      RunPopulates(s', ts[1..]);
    }
  }

  /** From an idle device, in every interleaving: when a copy-on-read request has its data, the image holds all
      the sectors asked for, and it keeps all that it held. */
  lemma CopyOnReadPopulates<D>(s: State<D>, ts: seq<Step<D>>, id: Id, x: nat)
    requires Idle(s) && IsRun(s, ts)
    requires id in Outcome(s, ts).reqs && Outcome(s, ts).reqs[id].req.IsCor()
    requires Outcome(s, ts).reqs[id].phase.Finished? && Outcome(s, ts).reqs[id].phase.result.Data?
    ensures SpanOf(Outcome(s, ts).reqs[id].req).Has(x) ==> x in Outcome(s, ts).top
    ensures x in s.top ==> x in Outcome(s, ts).top
    ensures Outcome(s, ts).backing == s.backing
  {
    hide IsRun, Outcome, Enabled, Apply, Inv;
    IdleIsSound(s);
    RunPopulates(s, ts);
    assert Holds(Outcome(s, ts), SpanOf(Outcome(s, ts).reqs[id].req));
  }

  // ----- one more step at the end of a run -----

  lemma {:induction false} RunThen<D>(s: State<D>, ts: seq<Step<D>>, t: Step<D>)
    requires IsRun(s, ts + [t])
    ensures IsRun(s, ts) && Enabled(Outcome(s, ts), t) && Outcome(s, ts + [t]) == Apply(Outcome(s, ts), t)
    decreases |ts|
  {
    hide Enabled, Apply;
    if ts == [] {
      assert ts + [t] == [t];
    } else {
      assert (ts + [t])[0] == ts[0] && (ts + [t])[1..] == ts[1..] + [t];
      RunThen(Apply(s, ts[0]), ts[1..], t);
    }
  }

  /** After a copy that succeeds, in any run, the image itself holds for each sector of the clusters what the
      guest wrote there last. */
  lemma RunCopiesClusters<D>(s: State<D>, ts: seq<Step<D>>, t: Step<D>, x: nat)
    requires Idle(s) && IsRun(s, ts + [t]) && t.CopyOut? && t.ok
    ensures IsRun(s, ts) && Enabled(Outcome(s, ts), t)
    ensures Outcome(s, ts).Clusters(t.id).Has(x) ==>
              && x in Outcome(s, ts + [t]).top
              && Outcome(s, ts + [t]).top[x] == LastWritten(GuestWrites(s, ts), x, s.View(x))
  {
    hide IsRun, Outcome, GuestWrites, LastWritten, Apply, RoundToClusters;
    RunThen(s, ts, t);
    IdleIsSound(s);
    RunIsTransparent(s, ts, x);
    CopyOutPopulates(Outcome(s, ts), t);
  }

  /** A read hands back, at the moment of the driver's answer, what the guest wrote last. */
  lemma ReadReturnsTheView<D>(s: State<D>, ts: seq<Step<D>>, t: Step<D>, i: nat)
    requires Idle(s) && IsRun(s, ts + [t]) && t.DriverRead? && t.ok
    ensures IsRun(s, ts) && Enabled(Outcome(s, ts), t) && t.id in Outcome(s, ts + [t]).reqs
    ensures var e := Outcome(s, ts + [t]).reqs[t.id];
            && e.req == Outcome(s, ts).reqs[t.id].req
            && e.phase.Finished? && e.phase.result.Data? && |e.phase.result.data| == e.req.nb
            && (i < e.req.nb ==>
                  e.phase.result.data[i] == LastWritten(GuestWrites(s, ts), e.req.sector + i, s.View(e.req.sector + i)))
  {
    hide IsRun, Outcome, GuestWrites, LastWritten;
    RunThen(s, ts, t);
    IdleIsSound(s);
    RunIsTransparent(s, ts, Outcome(s, ts).reqs[t.id].req.sector + i);
  }

  /** A write that succeeds is done, and the image itself holds its data. */
  lemma WriteIsDone<D>(s: State<D>, ts: seq<Step<D>>, t: Step<D>, x: nat)
    requires Idle(s) && IsRun(s, ts + [t]) && t.GuestWrite? && t.ok
    ensures IsRun(s, ts) && Enabled(Outcome(s, ts), t)
    ensures var e, s' := Outcome(s, ts).reqs[t.id], Outcome(s, ts + [t]);
            && t.id in s'.reqs && s'.reqs[t.id] == Entry(e.req, Finished(Done)) && |e.req.kind.data| == e.req.nb
            && (e.req.sector <= x < e.req.sector + e.req.nb ==>
                  x in s'.top && s'.top[x] == s'.View(x) == e.req.kind.data[x - e.req.sector])
  {
    hide IsRun, Outcome;
    RunThen(s, ts, t);
  }

  /** A request ends in an error exactly when the driver answers with one. */
  lemma ErrorsAreTheDrivers<D>(s: State<D>, t: Step<D>)
    requires Enabled(s, t) && !t.Enter? && !t.Scan? && !t.Leave?
    ensures t.id in Apply(s, t).reqs && (Apply(s, t).reqs[t.id].phase == Finished(Error) <==> !t.ok)
  {
    hide RoundToClusters, Slice;
  }

  // ----- no request is left behind -----

  function Rank<D>(p: Phase<D>): nat {
    match p
    case Waiting(_) => 0
    case Finished(_) => 1
    case Plain => 2
    case Bounced(_) => 2
    case Copying => 3
    case Tracked => 4
    case Scanning => 5
  }

  ghost function Todo<D>(s: State<D>): set<(Id, nat)> {
    set id, k | id in s.reqs && 0 <= k < Rank(s.reqs[id].phase) :: (id, k)
  }

  /** Every step but the arrival of a request makes progress, so no run goes on for ever without
      arrivals. */
  lemma EveryStepAdvances<D>(s: State<D>, t: Step<D>)
    requires Enabled(s, t) && !t.Enter?
    ensures Apply(s, t).reqs.Keys < s.reqs.Keys
         || (Apply(s, t).reqs.Keys == s.reqs.Keys && Todo(Apply(s, t)) < Todo(s))
  {
    if t.Leave? {
      assert t.id in s.reqs.Keys && t.id !in Apply(s, t).reqs.Keys;
    } else {
      ChangesPhase(s, t);
      RankFalls(s, t);
      TodoShrinks(s, Apply(s, t), t.id);
    }
  }

  lemma RankFalls<D>(s: State<D>, t: Step<D>)
    requires Enabled(s, t) && !t.Enter? && !t.Leave?
    ensures t.id in s.reqs && t.id in Apply(s, t).reqs
    ensures Rank(Apply(s, t).reqs[t.id].phase) < Rank(s.reqs[t.id].phase)
  {
  }

  lemma TodoShrinks<D>(s: State<D>, s': State<D>, id: Id)
    requires OnlyPhase(s, s', id) && Rank(s'.reqs[id].phase) < Rank(s.reqs[id].phase)
    ensures Todo(s') < Todo(s)
  {
    var p := (id, Rank(s'.reqs[id].phase));
    assert p in Todo(s) && p !in Todo(s');
    assert Todo(s') <= Todo(s);
  }

  function All(s: Span): set<nat> {
    set x: nat | s.start <= x < s.start + s.nb && s.Has(x)
  }

  /** What the request can do next when it is in the list. */
  ghost function Next<D>(s: State<D>, id: Id): Step<D>
    requires s.Tracks(id)
  {
    var e := s.reqs[id];
    match e.phase
    case Plain => DriverRead(id, true)
    case Copying => CopyIn(id, true)
    case Bounced(_) => CopyOut(id, All(s.Clusters(id)), true)
    case Finished(_) => Leave(id)
    case _ =>
      if e.req.kind.Write? then GuestWrite(id, All(SpanOf(e.req)), true)
      else if e.req.IsCor() then Query(id, true, true)
      else DriverRead(id, true)
  }

  lemma NextIsEnabled<D>(s: State<D>, id: Id)
    requires UpToDate(s) && s.Tracks(id)
    ensures Enabled(s, Next(s, id))
  {
  }

  /** There is no deadlock: as long as a request is there, one can move. */
  lemma SomeoneCanMove<D>(s: State<D>) returns (t: Step<D>)
    requires Inv(s) && s.reqs != map[]
    ensures Enabled(s, t) && !t.Enter?
  {
    var id :| id in s.reqs;
    if s.reqs[id].phase.Scanning? {
      if k :| s.Tracks(k) && SpanOverlaps(SpanOf(s.reqs[k].req), s.Clusters(id)) {
        t := Scan(id, k);
      } else {
        t := Scan(id, id);
      }
    } else {
      var j := if s.reqs[id].phase.Waiting? then s.reqs[id].phase.on else id;
      NextIsEnabled(s, j);
      t := Next(s, j);
    }
  }

  ghost predicate NoArrivals<D>(ts: seq<Step<D>>) {
    forall i :: 0 <= i < |ts| ==> !ts[i].Enter?
  }

  /** From every reachable state the requests can all be brought to their end. */
  lemma {:induction false} Drains<D>(s: State<D>) returns (ts: seq<Step<D>>)
    requires Inv(s)
    ensures IsRun(s, ts) && NoArrivals(ts) && Outcome(s, ts).reqs == map[]
    decreases s.reqs.Keys, Todo(s)
  {
    hide Inv, Enabled, Apply, Todo;
    if s.reqs == map[] {
      ts := [];
    } else {
      var t := SomeoneCanMove(s);
      StepKeepsInv(s, t);
      EveryStepAdvances(s, t);
      var rest := Drains(Apply(s, t));
      ts := [t] + rest;
      assert ts[1..] == rest;
    }
  }
}
