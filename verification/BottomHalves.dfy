/** Bottom halves: a linked list walked by polls that nest, with deletion put off until no walk is left
    (src/async.c:44-121).

    A callback does whatever its author likes with the interface; here it does the actions of the next
    entry of a script, and the script is arbitrary. */
module BottomHalves {

  // ----- histories -----

  /** What happens to bottom half number `id`.  `Drop`: it was scheduled, and cancelled or deleted.  `Run`: its
      callback is called, by a poll `depth` deep.  `Ret`: the callback returns. */
  datatype Event =
    | Sched(id: nat) | Drop(id: nat) | Del(id: nat)
    | Run(id: nat, idle: bool, depth: nat) | Ret(id: nat, depth: nat)

  function Delta(e: Event): int {
    match e
    case Sched(_) => 1
    case Drop(_) => -1
    case Del(_) => 0
    case Run(_, _, _) => -1
    case Ret(_, _) => 0
  }

  /** Schedulings of `id` that have neither led to a callback nor been dropped. */
  function Balance(log: seq<Event>, id: nat): int {
    if log == [] then 0
    else
      var e := log[|log| - 1];
      Balance(log[..|log| - 1], id) + if e.id == id then Delta(e) else 0
  }

  /** At every moment at most one scheduling is outstanding, none was answered by two callbacks, and what is
      deleted does not run. */
  ghost predicate Sound(log: seq<Event>) {
    && (forall n, id: nat :: 0 <= n <= |log| ==> 0 <= Balance(log[..n], id) <= 1)
    && (forall i, j :: 0 <= i < j < |log| && log[i].Del? && log[j].Run? ==> log[i].id != log[j].id)
  }

  lemma SoundNext(log: seq<Event>, e: Event)
    requires Sound(log) && 0 <= Balance(log, e.id) + Delta(e) <= 1 && (e.Run? ==> Del(e.id) !in log)
    ensures Sound(log + [e])
    ensures forall id: nat :: Balance(log + [e], id) == Balance(log, id) + if id == e.id then Delta(e) else 0
  {
    var log' := log + [e];
    assert log'[..|log|] == log && log[..|log|] == log && log'[..|log'|] == log';
    forall n, id: nat | 0 <= n <= |log'| ensures 0 <= Balance(log'[..n], id) <= 1 {
      if n <= |log| {
        assert log'[..n] == log[..n];
      } else {
        assert 0 <= Balance(log[..|log|], id) <= 1;
      }
    }
  }

  /** Between two callbacks of a bottom half it has been scheduled. */
  lemma {:induction false} CallbackNeedsScheduling(log: seq<Event>, i: nat, j: nat)
    requires Sound(log) && i < j < |log| && log[i].Run? && log[j].Run? && log[i].id == log[j].id
    ensures exists k :: i < k < j && log[k] == Sched(log[i].id)
  {
    var id := log[i].id;
    assert log[..i + 1][..i] == log[..i] && log[..j + 1][..j] == log[..j];
    assert Balance(log[..i], id) <= 1 && Balance(log[..j + 1], id) >= 0;
    if forall k :: i < k < j ==> log[k] != Sched(id) {
      NotScheduled(log, i + 1, j, id);
    }
  }

  lemma {:induction false} NotScheduled(log: seq<Event>, i: nat, j: nat, id: nat)
    requires i <= j <= |log| && forall k :: i <= k < j ==> log[k] != Sched(id)
    ensures Balance(log[..j], id) <= Balance(log[..i], id)
  {
    if i < j {
      NotScheduled(log, i, j - 1, id);
      assert log[..j][..j - 1] == log[..j - 1];
    }
  }

  /** What was not scheduled and is now has been scheduled in between. */
  lemma SchedBetween(log0: seq<Event>, log: seq<Event>, id: nat)
    requires log0 <= log && Balance(log0, id) < Balance(log, id)
    ensures exists i :: |log0| <= i < |log| && log[i] == Sched(id)
  {
    assert log[..|log0|] == log0 && log[..|log|] == log;
    if forall k :: |log0| <= k < |log| ==> log[k] != Sched(id) {
      NotScheduled(log, |log0|, |log|, id);
    }
  }

  // ----- what becomes of a bottom half that is due -----

  ghost predicate Due(bhs: seq<Bh>, k: nat) {
    k < |bhs| && bhs[k].scheduled && !bhs[k].deleted
  }

  predicate Touches(e: Event, k: nat) {
    e.id == k && !e.Ret?
  }

  ghost predicate Untouched(log: seq<Event>, n: nat, m: nat, k: nat) {
    forall i :: n <= i < m && i < |log| ==> !Touches(log[i], k)
  }

  /** Its callback is called, with the kind of scheduling that it had, or it is dropped. */
  predicate Answers(e: Event, k: nat, idle: bool) {
    e == Drop(k) || (e.Run? && e.id == k && e.idle == idle)
  }

  /** The first thing that has happened to `k` since the log had length `n` answers its scheduling. */
  ghost predicate Answered(log: seq<Event>, n: nat, k: nat, idle: bool) {
    exists i :: n <= i < |log| && Answers(log[i], k, idle) && Untouched(log, n, i, k)
  }

  /** Nothing has happened to `k`, which is as due as it was. */
  ghost predicate Waits(b: Bh, bhs: seq<Bh>, log: seq<Event>, n: nat, k: nat) {
    Due(bhs, k) && bhs[k].idle == b.idle && Untouched(log, n, |log|, k)
  }

  /** Whatever was due when the log had length `n` still waits or has been answered. */
  ghost predicate Follows(bhs0: seq<Bh>, n: nat, bhs: seq<Bh>, log: seq<Event>) {
    forall k: nat :: Due(bhs0, k) ==> Waits(bhs0[k], bhs, log, n, k) || Answered(log, n, k, bhs0[k].idle)
  }

  lemma AnsweredStays(log1: seq<Event>, log: seq<Event>, n: nat, k: nat, idle: bool)
    requires log1 <= log && Answered(log1, n, k, idle)
    ensures Answered(log, n, k, idle)
  {
    var i :| n <= i < |log1| && Answers(log1[i], k, idle) && Untouched(log1, n, i, k);
    assert forall j :: 0 <= j < |log1| ==> log[j] == log1[j];
    assert Answers(log[i], k, idle) && Untouched(log, n, i, k);
  }

  lemma AnsweredLater(log1: seq<Event>, log: seq<Event>, n: nat, k: nat, idle: bool)
    requires n <= |log1| && log1 <= log && Untouched(log1, n, |log1|, k) && Answered(log, |log1|, k, idle)
    ensures Answered(log, n, k, idle)
  {
    var i :| |log1| <= i < |log| && Answers(log[i], k, idle) && Untouched(log, |log1|, i, k);
    assert forall j :: 0 <= j < |log1| ==> log[j] == log1[j];
    assert Untouched(log, n, i, k);
  }

  lemma FollowsTwice(bhs0: seq<Bh>, n: nat, bhs1: seq<Bh>, log1: seq<Event>, bhs: seq<Bh>, log: seq<Event>)
    requires n <= |log1| && log1 <= log && Follows(bhs0, n, bhs1, log1) && Follows(bhs1, |log1|, bhs, log)
    ensures Follows(bhs0, n, bhs, log)
  {
    hide Answered;
    forall k: nat | Due(bhs0, k) ensures Waits(bhs0[k], bhs, log, n, k) || Answered(log, n, k, bhs0[k].idle) {
      if Answered(log1, n, k, bhs0[k].idle) {
        AnsweredStays(log1, log, n, k, bhs0[k].idle);
      } else if Answered(log, |log1|, k, bhs1[k].idle) {
        AnsweredLater(log1, log, n, k, bhs1[k].idle);
      } else {
        assert Waits(bhs0[k], bhs1, log1, n, k) && Waits(bhs1[k], bhs, log, |log1|, k);
        assert forall j :: 0 <= j < |log1| ==> log[j] == log1[j];
        assert Untouched(log, n, |log|, k);
      }
    }
  }

  /** One event, which is about its own bottom half only. */
  lemma FollowsOne(bhs: seq<Bh>, log: seq<Event>, e: Event, b: Bh)
    requires e.id < |bhs| && (e.Sched? || e.Del? ==> !bhs[e.id].scheduled) && (e.Ret? ==> b == bhs[e.id])
    requires e.Run? ==> e.idle == bhs[e.id].idle
    ensures Follows(bhs, |log|, bhs[e.id := b], log + [e])
  {
    var log' := log + [e];
    assert log'[|log|] == e;
    forall k: nat | Due(bhs, k)
      ensures Waits(bhs[k], bhs[e.id := b], log', |log|, k) || Answered(log', |log|, k, bhs[k].idle)
    {
      if Touches(e, k) {
        assert Answers(log'[|log|], k, bhs[k].idle) && Untouched(log', |log|, |log|, k);
      }
    }
  }

  lemma {:induction false} NoEvents(log: seq<Event>, id: nat)
    requires forall i :: 0 <= i < |log| ==> log[i].id != id
    ensures Balance(log, id) == 0 && Del(id) !in log
  {
    if log != [] {
      NoEvents(log[..|log| - 1], id);
    }
  }

  // ----- the list -----

  /** A pointer to a bottom half is its number; bottom halves are numbered as they are made. */
  const NULL := -1

  datatype Bh = Bh(next: int, scheduled: bool, idle: bool, deleted: bool, freed: bool)

  function Bit(b: bool): int { if b then 1 else 0 }

  /** What the flags say is what the log says. */
  ghost predicate Flags(bhs: seq<Bh>, log: seq<Event>) {
    && Sound(log)
    && (forall i :: 0 <= i < |log| ==> log[i].id < |bhs|)
    && (forall k :: 0 <= k < |bhs| ==> Balance(log, k) == Bit(bhs[k].scheduled))
    && (forall k :: 0 <= k < |bhs| ==> (bhs[k].deleted <==> Del(k) in log))
  }

  function Head(list: seq<nat>): int {
    if list == [] then NULL else list[0]
  }

  /** The `next` pointers lead along `list`. */
  ghost predicate Chain(bhs: seq<Bh>, list: seq<nat>) {
    && (forall i :: 0 <= i < |list| ==> list[i] < |bhs|)
    && (forall i, j :: 0 <= i < j < |list| && j == i + 1 ==> bhs[list[i]].next == list[j])
    && (list != [] ==> bhs[list[|list| - 1]].next == NULL)
  }

  predicate Once(list: seq<nat>) {
    forall i, j :: 0 <= i < j < |list| ==> list[i] != list[j]
  }

  /** Exactly those not on the list are freed; only the deleted are. */
  ghost predicate Freed(bhs: seq<Bh>, list: seq<nat>) {
    && (forall k :: 0 <= k < |bhs| ==> (bhs[k].freed <==> k !in list))
    && (forall k :: 0 <= k < |bhs| && bhs[k].freed ==> bhs[k].deleted)
  }

  /** `list` is what is reached from `first`, and exactly what is not freed. */
  ghost predicate Linked(bhs: seq<Bh>, first: int, list: seq<nat>) {
    first == Head(list) && Chain(bhs, list) && Once(list) && Freed(bhs, list)
  }

  /** While a walk of depth `depth` is under way the list only grows at its head, so nothing on it is freed; what is
      due waits or is answered; and new callbacks happen in deeper walks. */
  ghost predicate Grown(s: History, t: History, depth: nat) {
    && EndsWith(t.list, s.list) && s.log <= t.log && |s.bhs| <= |t.bhs|
    && Follows(s.bhs, |s.log|, t.bhs, t.log) && Deeper(t.log[|s.log|..], depth)
  }

  ghost predicate Deeper(events: seq<Event>, depth: nat) {
    forall k :: 0 <= k < |events| && (events[k].Run? || events[k].Ret?) ==> events[k].depth > depth
  }

  ghost predicate EndsWith(list: seq<nat>, end: seq<nat>) {
    |end| <= |list| && list[|list| - |end|..] == end
  }

  lemma GrownTwice(s: History, t: History, u: History, depth: nat)
    requires Grown(s, t, depth) && Grown(t, u, depth)
    ensures Grown(s, u, depth)
  {
    hide Follows;
    FollowsTwice(s.bhs, |s.log|, t.bhs, t.log, u.bhs, u.log);
    assert u.log[|s.log|..] == t.log[|s.log|..] + u.log[|t.log|..];
  }

  lemma SameLinks(bhs: seq<Bh>, first: int, list: seq<nat>, k: nat, b: Bh)
    requires Linked(bhs, first, list) && k < |bhs| && b.next == bhs[k].next && b.freed == bhs[k].freed
    requires bhs[k].deleted ==> b.deleted
    ensures Linked(bhs[k := b], first, list)
  {
  }

  lemma FlagsNext(bhs: seq<Bh>, log: seq<Event>, e: Event, b: Bh)
    requires Flags(bhs, log) && e.id < |bhs| && (e.Run? ==> !bhs[e.id].deleted)
    requires Bit(b.scheduled) == Bit(bhs[e.id].scheduled) + Delta(e)
    requires b.deleted <==> bhs[e.id].deleted || e.Del?
    ensures Flags(bhs[e.id := b], log + [e])
  {
    hide Balance;
    SoundNext(log, e);
    forall k | 0 <= k < |bhs| ensures Del(k) in log + [e] <==> Del(k) in log || e == Del(k) {
    }
  }

  lemma FlagsNew(bhs: seq<Bh>, log: seq<Event>, b: Bh)
    requires Flags(bhs, log) && !b.scheduled && !b.deleted
    ensures Flags(bhs + [b], log)
  {
    NoEvents(log, |bhs|);
  }

  lemma LinkedNew(bhs: seq<Bh>, first: int, list: seq<nat>, b: Bh)
    requires Linked(bhs, first, list) && b.next == first && !b.freed
    ensures Linked(bhs + [b], |bhs|, [|bhs|] + list)
  {
    var list' := [|bhs|] + list;
    assert forall i :: 0 < i < |list'| ==> list'[i] == list[i - 1];
    assert Freed(bhs + [b], list') by {
      hide Chain, Once;
      assert forall k :: k in list' <==> k == |bhs| || k in list;
    }
  }

  /** What a context is at some moment. */
  datatype History = History(bhs: seq<Bh>, list: seq<nat>, log: seq<Event>)

  datatype Action = Schedule(id: nat) | ScheduleIdle(id: nat) | Cancel(id: nat) | Delete(id: nat) | New | Poll

  class Context {
    var first: int
    var nesting: nat
    var bhs: seq<Bh>           // every bottom half made so far, by number
    ghost var list: seq<nat>   // those on the list
    ghost var log: seq<Event>

    ghost predicate Valid()
      reads this
    {
      Flags(bhs, log) && Linked(bhs, first, list)
    }

    ghost function Now(): History
      reads this
    {
      History(bhs, list, log)
    }

    constructor ()
      ensures Valid() && nesting == 0 && bhs == [] && list == [] && log == []
    {
      first, nesting, bhs, list, log := NULL, 0, [], [], [];
    }

    /** `qemu_bh_new` */
    method NewBh() returns (bh: nat)
      requires Valid()
      modifies this`first, this`bhs, this`list
      ensures Valid() && bh == |old(bhs)| && bhs == old(bhs) + [Bh(old(first), false, false, false, false)]
      ensures list == [bh] + old(list)
    {
      hide Flags, Linked;
      bh := |bhs|;
      var b := Bh(first, false, false, false, false);
      FlagsNew(bhs, log, b);
      LinkedNew(bhs, first, list, b);
      bhs := bhs + [b];
      first := bh;
      list := [bh] + list;
    }

    /** `qemu_bh_schedule` and `qemu_bh_schedule_idle` */
    method ScheduleBh(bh: nat, idle: bool)
      requires Valid() && bh < |bhs| && !bhs[bh].freed
      modifies this`log, this`bhs
      ensures Valid() && log == if old(bhs)[bh].scheduled then old(log) else old(log) + [Sched(bh)]
      ensures bhs == old(bhs)[bh := if old(bhs)[bh].scheduled then old(bhs)[bh]
                                    else old(bhs)[bh].(scheduled := true, idle := idle)]
    {
      hide Flags, Linked;
      if bhs[bh].scheduled {
        return;
      }
      var b := bhs[bh].(scheduled := true, idle := idle);
      FlagsNext(bhs, log, Sched(bh), b);
      SameLinks(bhs, first, list, bh, b);
      bhs := bhs[bh := b];
      log := log + [Sched(bh)];
    }

    /** `qemu_bh_cancel` */
    method CancelBh(bh: nat)
      requires Valid() && bh < |bhs| && !bhs[bh].freed
      modifies this`log, this`bhs
      ensures Valid() && bhs == old(bhs)[bh := old(bhs)[bh].(scheduled := false)]
      ensures log == if old(bhs)[bh].scheduled then old(log) + [Drop(bh)] else old(log)
    {
      hide Flags, Linked;
      var b := bhs[bh].(scheduled := false);
      SameLinks(bhs, first, list, bh, b);
      if bhs[bh].scheduled {
        FlagsNext(bhs, log, Drop(bh), b);
        log := log + [Drop(bh)];
      } else {
        assert bhs[bh := b] == bhs;
      }
      bhs := bhs[bh := b];
    }

    /** `qemu_bh_delete` */
    method DeleteBh(bh: nat)
      requires Valid() && bh < |bhs| && !bhs[bh].freed
      modifies this`log, this`bhs
      ensures Valid() && bhs == old(bhs)[bh := old(bhs)[bh].(scheduled := false, deleted := true)]
      ensures log == old(log) + (if old(bhs)[bh].scheduled then [Drop(bh)] else []) + [Del(bh)]
    {
      hide Flags, Linked;
      CancelBh(bh);
      var b := bhs[bh].(deleted := true);
      FlagsNext(bhs, log, Del(bh), b);
      SameLinks(bhs, first, list, bh, b);
      bhs := bhs[bh := b];
      log := log + [Del(bh)];
    }

    /** One thing that a callback, or the main loop, does.  A bottom half that is freed is not its to use. */
    method Act(a: Action, script: seq<seq<Action>>) returns (rest: seq<seq<Action>>)
      requires Valid()
      modifies this
      ensures Valid() && nesting == old(nesting) && |old(bhs)| <= |bhs| && old(log) <= log
      ensures Used(script, rest, CountRuns(log[|old(log)|..])) && |rest| <= |script|
      ensures nesting > 0 ==> Grown(old(Now()), Now(), nesting)
      ensures a.New? ==> list == [|old(bhs)|] + old(list) && log == old(log)
      ensures !a.New? && !a.Poll? && a.id < |old(bhs)| && !old(bhs)[a.id].freed ==>
                && list == old(list) && |bhs| == |old(bhs)|
                && bhs[a.id].scheduled == (a.Schedule? || a.ScheduleIdle?) && (a.Delete? ==> bhs[a.id].deleted)
      decreases |script|, 3
    {
      hide Flags, Linked, Follows;
      rest := script;
      ghost var s := Now();
      GrownNone(s, nesting);
      NoRuns(log);
      if a.New? {
        var _ := NewBh();
        GrownNew(s, bhs[|s.bhs|], nesting);
      } else if a.Poll? {
        var _, r := PollBhs(script);
        rest := r;
      } else if a.id < |bhs| && !bhs[a.id].freed {
        GrownActs(s, a.id, a.ScheduleIdle?, nesting);
        if a.Cancel? {
          CancelBh(a.id);
        } else if a.Delete? {
          DeleteBh(a.id);
        } else {
          ScheduleBh(a.id, a.ScheduleIdle?);
        }
      }
    }

    method Callback(actions: seq<Action>, script: seq<seq<Action>>) returns (rest: seq<seq<Action>>)
      requires Valid() && nesting > 0
      modifies this
      ensures Valid() && nesting == old(nesting) && old(log) <= log
      ensures Used(script, rest, CountRuns(log[|old(log)|..])) && |rest| <= |script|
      ensures Grown(old(Now()), Now(), nesting)
      decreases |script|, 4
    {
      hide Flags, Linked, Grown, CountRuns, Used;
      rest := script;
      ghost var s := Now();
      GrownNone(s, nesting);
      NoRuns(log);
      for i := 0 to |actions|
        invariant Valid() && nesting == old(nesting) && old(log) <= log
        invariant Used(script, rest, CountRuns(log[|old(log)|..])) && |rest| <= |script|
        invariant Grown(s, Now(), nesting)
      {
        ghost var t, rest1 := Now(), rest;
        rest := Act(actions[i], rest);
        GrownTwice(s, t, Now(), nesting);
        UsedTwice(script, rest1, rest, s.log, t.log, log);
      }
    }

    /** A bottom half that is due: it leaves the scheduled state, and then its callback runs. */
    method Visit(bh: nat, script: seq<seq<Action>>) returns (rest: seq<seq<Action>>, ghost inner: seq<Event>)
      requires Valid() && nesting > 0 && Due(bhs, bh)
      modifies this
      ensures Valid() && nesting == old(nesting)
      ensures Grown(old(Now()), Now(), nesting - 1) && Visited(old(Now()), Now(), bh, nesting, inner)
      ensures Used(script, rest, CountRuns([Run(bh, old(bhs)[bh].idle, nesting)] + inner + [Ret(bh, nesting)])) && |rest| <= |script|
      ensures script == [] ==> inner == [] && list == old(list) &&
                               bhs == old(bhs)[bh := old(bhs)[bh].(scheduled := false, idle := false)]
      decreases |script|, 0
    {
      hide Flags, Linked, Grown, Follows, Visited, CountRuns, Used;
      ghost var s := Now();
      RunOne(bh);
      ghost var t := Now();
      GrownEvent(s, Run(bh, s.bhs[bh].idle, nesting), t.bhs[bh], nesting - 1);
      rest := script;
      if rest != [] {
        rest := Callback(rest[0], rest[1..]);
      } else {
        GrownNone(t, nesting);
      }
      ghost var u := Now();
      inner := log[|t.log|..];
      GrownLog(t, u, nesting);
      UsedOne(script, rest, s.log, bh, s.bhs[bh].idle, nesting, inner);
      GrownEvent(u, Ret(bh, nesting), bhs[bh], nesting - 1);
      FlagsNext(bhs, log, Ret(bh, nesting), bhs[bh]);
      assert bhs[bh := bhs[bh]] == bhs;
      log := log + [Ret(bh, nesting)];
      GrownDeeper(t, u, nesting);
      GrownTwice(s, t, u, nesting - 1);
      GrownTwice(s, u, Now(), nesting - 1);
      VisitedNow(s, t, u, bh, nesting, inner);
    }

    /** The walk of `qemu_bh_poll`. */
    method Walk(script: seq<seq<Action>>) returns (ret: bool, rest: seq<seq<Action>>)
      requires Valid() && nesting > 0
      modifies this
      ensures Valid() && nesting == old(nesting)
      ensures Grown(old(Now()), Now(), nesting - 1) && Polled(old(Now()), bhs, log, nesting, |old(list)|)
      ensures Used(script, rest, CountRuns(log[|old(log)|..])) && |rest| <= |script|
      ensures ret <==> RanBusy(log, |old(log)|, nesting)
      ensures script == [] ==> Quiet(old(Now()), bhs, log, nesting, |old(list)|)
      ensures script == [] ==> (ret <==> SomeBusy(old(Now()), |old(list)|))
      decreases |script|, 1
    {
      hide Flags, Linked, Walking, Due, EndsWith, Head, Once, Grown, Polled, RanBusy, CountRuns, Used, Quiet, SomeBusy, Visited;
      ghost var s := Now();
      ret, rest := false, script;
      ListIs(bhs, first, list);
      WalkingStarts(s, script, nesting);
      ghost var left := list;
      var bh := first;
      EndsWithItself(list);
      HeadIs(bhs, first, list, left);
      while bh != NULL
        invariant Valid() && nesting == old(nesting) && |rest| <= |script|
        invariant Walking(s, Now(), script, rest, ret, nesting, left) && EndsWith(list, left) && bh == Head(left)
        decreases |left|
      {
        HeadIs(bhs, first, list, left);
        HeadOf(left);
        var next := bhs[bh].next;
        ghost var t, rest1, ret1 := Now(), rest, ret;
        if !bhs[bh].deleted && bhs[bh].scheduled {
          if !bhs[bh].idle {
            ret := true;
          }
          IsDue(bhs, bh);
          ghost var inner;
          rest, inner := Visit(bh, rest);
          WalkingVisit(s, t, Now(), script, rest1, rest, ret1, ret, nesting, left, inner);
        } else {
          IsDue(bhs, bh);
          WalkingSkip(s, t, script, rest, ret, nesting, left);
        }
        left := left[1..];
        bh := next;
      }
      HeadOf(left);
      WalkingEnds(s, Now(), script, rest, ret, nesting, left);
    }

    method RunOne(bh: nat)
      requires Valid() && Due(bhs, bh)
      modifies this`bhs, this`log
      ensures Valid() && bhs == old(bhs)[bh := old(bhs)[bh].(scheduled := false, idle := false)]
      ensures log == old(log) + [Run(bh, old(bhs)[bh].idle, nesting)]
    {
      hide Flags, Linked;
      var b := bhs[bh].(scheduled := false, idle := false);
      FlagsNext(bhs, log, Run(bh, bhs[bh].idle, nesting), b);
      SameLinks(bhs, first, list, bh, b);
      log := log + [Run(bh, bhs[bh].idle, nesting)];
      bhs := bhs[bh := b];
    }

    /** Takes the deleted `cur`, which comes after `kept`, off the list and frees it. */
    method FreeOne(prev: int, cur: nat, ghost kept: seq<nat>, ghost todo: seq<nat>) returns (next: int)
      requires Valid() && list == kept + todo && todo != [] && cur == todo[0] < |bhs| && prev == Last(kept) && bhs[cur].deleted
      modifies this`first, this`bhs, this`list
      ensures Valid() && list == kept + todo[1..] && next == Head(todo[1..]) && AllSame(old(bhs), bhs)
    {
      hide Flags, Linked;
      Unlink(bhs, first, kept, todo);
      next := bhs[cur].next;
      if prev == NULL {
        first := next;
      } else {
        bhs := bhs[prev := bhs[prev].(next := next)];
      }
      bhs := bhs[cur := bhs[cur].(freed := true)];
      KeepsFlags(old(bhs), bhs, log);
      list := kept + todo[1..];
    }

    /** The end of the outermost `qemu_bh_poll`: free what is deleted. */
    method Sweep()
      requires Valid()
      modifies this`first, this`bhs, this`list
      ensures Valid() && list == Live(old(bhs), old(list)) && AllSame(old(bhs), bhs)
      ensures forall k :: 0 <= k < |bhs| ==> (bhs[k].freed <==> bhs[k].deleted)
    {
      hide Flags, Linked, Live, AllSame;
      ghost var kept: seq<nat>, todo := [], list;
      var prev, cur := NULL, first;
      HeadIs(bhs, first, list, todo);
      SameAll(bhs, bhs, bhs);
      while cur != NULL
        invariant Valid() && list == kept + todo && cur == Head(todo) && prev == Last(kept)
        invariant AllSame(old(bhs), bhs) && kept + Live(old(bhs), todo) == Live(old(bhs), old(list))
        decreases |todo|
      {
        HeadIs(bhs, first, list, todo);
        SameOne(old(bhs), bhs, cur);
        LiveStep(old(bhs), kept, todo);
        if bhs[cur].deleted {
          ghost var bhs1 := bhs;
          cur := FreeOne(prev, cur, kept, todo);
          SameAll(old(bhs), bhs1, bhs);
        } else {
          prev := cur;
          cur := bhs[cur].next;
          assert kept + todo == kept + [todo[0]] + todo[1..];
          kept := kept + [prev];
        }
        todo := todo[1..];
      }
      LiveStep(old(bhs), kept, todo);
      assert kept + todo == kept;
      Swept(old(bhs), bhs, first, old(list));
    }

    /** `qemu_bh_poll`.  Whatever the callbacks do: they are called in the order of the list, one at a time, and
        only they do anything else; the first thing that happens to a bottom half that was due is its callback,
        unless a callback drops it; one that is due at the end has been scheduled too late for this poll; a poll
        inside another frees nothing; and the outermost one leaves on the list exactly those that are not deleted.
        With callbacks that do nothing, exactly those that are due run, once each. */
    method PollBhs(script: seq<seq<Action>>) returns (ret: bool, rest: seq<seq<Action>>)
      requires Valid()
      modifies this
      ensures Valid() && nesting == old(nesting) && |old(bhs)| <= |bhs| && old(log) <= log
      ensures nesting > 0 ==> Grown(old(Now()), Now(), nesting)
      ensures nesting == 0 ==> forall k :: 0 <= k < |bhs| ==> (bhs[k].freed <==> bhs[k].deleted)
      ensures Polled(old(Now()), bhs, log, nesting + 1, |old(list)|)
      ensures forall k: nat :: k in old(list) && Due(old(bhs), k) ==> Answered(log, |old(log)|, k, old(bhs)[k].idle)
      ensures Deeper(log[|old(log)|..], nesting)
      ensures Used(script, rest, CountRuns(log[|old(log)|..])) && |rest| <= |script|
      ensures ret <==> RanBusy(log, |old(log)|, nesting + 1)
      ensures script == [] ==> Quiet(old(Now()), bhs, log, nesting + 1, |old(list)|)
      ensures script == [] ==> (ret <==> SomeBusy(old(Now()), |old(list)|))
      decreases |script|, 2
    {
      hide Flags, Linked, Grown, Polled, RanBusy, CountRuns, Used, Quiet, SomeBusy, Answered;
      ghost var s := Now();
      nesting := nesting + 1;
      ret, rest := Walk(script);
      ghost var t := Now();
      GrownLog(s, t, nesting - 1);
      AllAnswered(s, t, nesting);
      nesting := nesting - 1;
      if nesting == 0 {
        Sweep();
        SweptPolled(s, t.bhs, bhs, log, nesting + 1, |s.list|);
      }
    }
  }

  /** Whole runs: whatever the main loop and the callbacks do, the history is sound. */
  method MainLoop(actions: seq<Action>, script: seq<seq<Action>>) returns (ghost log: seq<Event>, context: Context)
    ensures context.Valid() && log == context.log && Sound(log)
  {
    context := new Context();
    var rest := script;
    for i := 0 to |actions|
      invariant context.Valid() && fresh(context)
    {
      rest := context.Act(actions[i], rest);
    }
    log := context.log;
  }

  // ----- what a walk keeps -----

  lemma GrownNone(s: History, depth: nat)
    ensures Grown(s, s, depth)
  {
  }

  lemma GrownLog(s: History, t: History, depth: nat)
    requires Grown(s, t, depth)
    ensures s.log <= t.log && |s.bhs| <= |t.bhs| && Deeper(t.log[|s.log|..], depth)
  {
  }

  lemma GrownDeeper(s: History, t: History, depth: nat)
    requires Grown(s, t, depth) && depth > 0
    ensures Grown(s, t, depth - 1)
  {
    hide Follows;
  }

  lemma GrownNew(s: History, b: Bh, depth: nat)
    ensures Grown(s, History(s.bhs + [b], [|s.bhs|] + s.list, s.log), depth)
  {
  }

  lemma GrownEvent(s: History, e: Event, b: Bh, depth: nat)
    requires e.id < |s.bhs| && (e.Sched? || e.Del? ==> !s.bhs[e.id].scheduled) && (e.Ret? ==> b == s.bhs[e.id])
    requires (e.Run? ==> e.idle == s.bhs[e.id].idle) && (e.Run? || e.Ret? ==> e.depth > depth)
    ensures Grown(s, History(s.bhs[e.id := b], s.list, s.log + [e]), depth)
    ensures e.Ret? ==> s.bhs[e.id := b] == s.bhs
  {
    hide Follows;
    FollowsOne(s.bhs, s.log, e, b);
  }

  /** What the calls of the interface do to a history. */
  lemma GrownActs(s: History, id: nat, idle: bool, depth: nat)
    requires id < |s.bhs|
    ensures var b := s.bhs[id];
            && Grown(s, History(s.bhs[id := if b.scheduled then b else b.(scheduled := true, idle := idle)], s.list,
                                if b.scheduled then s.log else s.log + [Sched(id)]), depth)
            && Grown(s, History(s.bhs[id := b.(scheduled := false)], s.list,
                                if b.scheduled then s.log + [Drop(id)] else s.log), depth)
            && Grown(s, History(s.bhs[id := b.(scheduled := false, deleted := true)], s.list,
                                s.log + (if b.scheduled then [Drop(id)] else []) + [Del(id)]), depth)
    ensures forall e: Event :: !e.Run? ==> CountRuns([e]) == 0
  {
    hide Grown;
    var b := s.bhs[id];
    var dropped := b.(scheduled := false);
    GrownNone(s, depth);
    assert !b.scheduled ==> b == dropped && s.bhs[id := dropped] == s.bhs;
    assert s.bhs[id := b] == s.bhs;
    var t := History(s.bhs[id := dropped], s.list, if b.scheduled then s.log + [Drop(id)] else s.log);
    if b.scheduled {
      GrownEvent(s, Drop(id), dropped, depth);
    } else {
      GrownEvent(s, Sched(id), b.(scheduled := true, idle := idle), depth);
    }
    GrownEvent(t, Del(id), dropped.(deleted := true), depth);
    GrownTwice(s, t, History(t.bhs[id := dropped.(deleted := true)], t.list, t.log + [Del(id)]), depth);
    assert t.bhs[id := dropped.(deleted := true)] == s.bhs[id := b.(scheduled := false, deleted := true)];
    assert s.log + [] == s.log;
  }

  /** A walk's place on the list stays good. */
  lemma StillEnds(s: History, t: History, depth: nat, left: seq<nat>)
    requires Grown(s, t, depth) && EndsWith(s.list, left) && left != []
    ensures EndsWith(t.list, left) && EndsWith(t.list, left[1..])
  {
    assert t.list[|t.list| - |left|..] == t.list[|t.list| - |s.list|..][|s.list| - |left|..];
    assert t.list[|t.list| - |left| + 1..] == t.list[|t.list| - |left|..][1..];
  }

  lemma LeftIs(list: seq<nat>, left: seq<nat>)
    requires EndsWith(list, left) && left != []
    ensures list[|list| - |left|] == left[0]
  {
  }

  lemma LeftNext(list: seq<nat>, left: seq<nat>)
    requires EndsWith(list, left) && left != []
    ensures EndsWith(list, left[1..])
  {
    assert list[|list| - |left| + 1..] == list[|list| - |left|..][1..];
  }

  /** A bottom half that the walk is at, or goes to next, is on the list and not freed. */
  lemma HeadIs(bhs: seq<Bh>, first: int, list: seq<nat>, left: seq<nat>)
    requires Linked(bhs, first, list) && EndsWith(list, left)
    ensures left == list ==> first == Head(left)
    ensures left != [] ==> left[0] < |bhs| && !bhs[left[0]].freed && bhs[left[0]].next == Head(left[1..])
  {
    if left != [] {
      var i := |list| - |left|;
      assert list[i] == left[0] && list[i] in list;
      assert |left| > 1 ==> list[i + 1] == left[1];
    }
  }

  // ----- scripts -----

  function CountRuns(events: seq<Event>): nat {
    if events == [] then 0
    else CountRuns(events[..|events| - 1]) + if events[|events| - 1].Run? then 1 else 0
  }

  lemma {:induction false} CountJoin(a: seq<Event>, b: seq<Event>)
    ensures CountRuns(a + b) == CountRuns(a) + CountRuns(b)
  {
    if b == [] {
      assert a + b == a;
    } else {
      CountJoin(a, b[..|b| - 1]);
      assert (a + b)[..|a + b| - 1] == a + b[..|b| - 1];
    }
  }

  /** Every callback takes one entry of the script, as long as there are some. */
  ghost predicate Used(script: seq<seq<Action>>, rest: seq<seq<Action>>, runs: nat) {
    rest == script[if runs < |script| then runs else |script|..]
  }

  lemma NoRuns(log: seq<Event>)
    ensures CountRuns(log[|log|..]) == 0 && forall script :: Used(script, script, 0)
  {
  }

  lemma UsedMore(script: seq<seq<Action>>, rest1: seq<seq<Action>>, rest: seq<seq<Action>>, m: nat, n: nat)
    requires Used(script, rest1, m) && Used(rest1, rest, n)
    ensures Used(script, rest, m + n)
  {
  }

  lemma UsedTwice(script: seq<seq<Action>>, rest1: seq<seq<Action>>, rest: seq<seq<Action>>,
                  log0: seq<Event>, log1: seq<Event>, log: seq<Event>)
    requires log0 <= log1 <= log
    requires Used(script, rest1, CountRuns(log1[|log0|..])) && Used(rest1, rest, CountRuns(log[|log1|..]))
    ensures Used(script, rest, CountRuns(log[|log0|..]))
  {
    hide CountRuns, Used;
    CountJoin(log1[|log0|..], log[|log1|..]);
    assert log[|log0|..] == log1[|log0|..] + log[|log1|..];
    UsedMore(script, rest1, rest, CountRuns(log1[|log0|..]), CountRuns(log[|log1|..]));
  }

  lemma UsedOne(script: seq<seq<Action>>, rest: seq<seq<Action>>, log: seq<Event>, bh: nat, idle: bool, depth: nat, inner: seq<Event>)
    requires script == [] ==> rest == [] && inner == []
    requires script != [] ==> Used(script[1..], rest, CountRuns(inner)) && |rest| < |script|
    ensures Used(script, rest, CountRuns([Run(bh, idle, depth)] + inner + [Ret(bh, depth)]))
  {
    CountJoin([Run(bh, idle, depth)], inner);
    CountJoin([Run(bh, idle, depth)] + inner, [Ret(bh, depth)]);
    assert CountRuns([Run(bh, idle, depth)]) == 1 && CountRuns([Ret(bh, depth)]) == 0;
  }

  lemma UsedVisit(script: seq<seq<Action>>, rest1: seq<seq<Action>>, rest: seq<seq<Action>>, log0: seq<Event>,
                  t: History, u: History, bh: nat, depth: nat, inner: seq<Event>)
    requires log0 <= t.log && Visited(t, u, bh, depth, inner) && Used(script, rest1, CountRuns(t.log[|log0|..]))
    requires Used(rest1, rest, CountRuns([Run(bh, t.bhs[bh].idle, depth)] + inner + [Ret(bh, depth)]))
    ensures Used(script, rest, CountRuns(u.log[|log0|..]))
  {
    hide CountRuns, Used;
    assert u.log[|t.log|..] == [Run(bh, t.bhs[bh].idle, depth)] + inner + [Ret(bh, depth)];
    UsedTwice(script, rest1, rest, log0, t.log, u.log);
  }

  // ----- one visit -----

  /** What the visit to a bottom half that is due puts in the log, and what is due after it that was not. */
  ghost predicate Visited(t: History, u: History, bh: nat, depth: nat, inner: seq<Event>) {
    && bh < |t.bhs| <= |u.bhs| && u.log == t.log + ([Run(bh, t.bhs[bh].idle, depth)] + inner + [Ret(bh, depth)])
    && Deeper(inner, depth)
    && forall k: nat :: k < |t.bhs| && Due(u.bhs, k) && (k == bh || !Due(t.bhs, k)) ==> Sched(k) in inner
  }

  lemma VisitedNow(s: History, t: History, u: History, bh: nat, depth: nat, inner: seq<Event>)
    requires bh < |s.bhs| == |t.bhs| <= |u.bhs| && t.bhs == s.bhs[bh := t.bhs[bh]] && !t.bhs[bh].scheduled
    requires t.log == s.log + [Run(bh, s.bhs[bh].idle, depth)] && u.log == t.log + inner && Deeper(inner, depth)
    requires Flags(t.bhs, t.log) && Flags(u.bhs, u.log)
    ensures Visited(s, History(u.bhs, u.list, u.log + [Ret(bh, depth)]), bh, depth, inner)
  {
    hide Balance;
    forall k: nat | k < |s.bhs| && Due(u.bhs, k) && (k == bh || !Due(s.bhs, k)) ensures Sched(k) in inner {
      assert Del(k) in t.log ==> Del(k) in u.log;
      assert !t.bhs[k].scheduled;
      SchedBetween(t.log, u.log, k);
      var i :| |t.log| <= i < |u.log| && u.log[i] == Sched(k);
      assert inner[i - |t.log|] == Sched(k);
    }
  }

  // ----- polls -----

  /** The event belongs to a poll of this depth itself. */
  predicate Own(e: Event, depth: nat) {
    (e.Run? || e.Ret?) && e.depth == depth
  }

  /** Event `k` happens while a callback of this depth runs. */
  ghost predicate Inside(log: seq<Event>, n: nat, k: nat, depth: nat)
    requires k <= |log|
  {
    exists j :: n <= j < k && log[j].Run? && log[j].depth == depth && forall m :: j < m < k ==> !Own(log[m], depth)
  }

  /** All that happens, other than calling callbacks, happens inside callbacks. */
  ghost predicate Bracketed(log: seq<Event>, n: nat, depth: nat) {
    forall k :: n <= k < |log| ==> Own(log[k], depth) || Inside(log, n, k, depth)
  }

  /** The bottom halves whose callbacks a poll of this depth has called, in order. */
  function RunsOf(events: seq<Event>, depth: nat): seq<nat> {
    if events == [] then []
    else
      var e := events[|events| - 1];
      RunsOf(events[..|events| - 1], depth) + if e.Run? && e.depth == depth then [e.id] else []
  }

  /** `a` is `b` with some left out. */
  ghost predicate Sub(a: seq<nat>, b: seq<nat>) {
    if a == [] then true
    else b != [] && (Sub(a, b[..|b| - 1]) || (a[|a| - 1] == b[|b| - 1] && Sub(a[..|a| - 1], b[..|b| - 1])))
  }

  /** `list[q]` has been scheduled by a callback, called by this poll, of a bottom half at or behind it. */
  ghost predicate SchedLate(list: seq<nat>, log: seq<Event>, n: nat, depth: nat, q: nat)
    requires q < |list|
  {
    exists j, i :: n <= j < i < |log| && log[j].Run? && log[j].depth == depth && log[j].id in list[q..] && log[i] == Sched(list[q])
  }

  ghost predicate OnlyLate(list: seq<nat>, bhs: seq<Bh>, log: seq<Event>, n: nat, depth: nat, done: nat) {
    forall q: nat :: q < done && q < |list| && Due(bhs, list[q]) ==> SchedLate(list, log, n, depth, q)
  }

  /** A poll of this depth, begun at `s`, has gone through the first `done` of the list. */
  ghost predicate Polled(s: History, bhs: seq<Bh>, log: seq<Event>, depth: nat, done: nat) {
    && s.log <= log && done <= |s.list|
    && Bracketed(log, |s.log|, depth)
    && Sub(RunsOf(log[|s.log|..], depth), s.list[..done])
    && OnlyLate(s.list, bhs, log, |s.log|, depth, done)
  }

  /** A busy bottom half, one that was not idle, ran at this depth. */
  ghost predicate RanBusy(log: seq<Event>, n: nat, depth: nat) {
    exists k :: n <= k < |log| && log[k].Run? && log[k].depth == depth && !log[k].idle
  }

  ghost predicate SomeBusy(s: History, done: nat) {
    exists q :: 0 <= q < done && q < |s.list| && Due(s.bhs, s.list[q]) && !s.bhs[s.list[q]].idle
  }

  /** The calls of the callbacks of those that are due. */
  ghost function AllRuns(bhs: seq<Bh>, ids: seq<nat>, depth: nat): seq<Event> {
    if ids == [] then []
    else
      var k := ids[|ids| - 1];
      AllRuns(bhs, ids[..|ids| - 1], depth) + if Due(bhs, k) then [Run(k, bhs[k].idle, depth), Ret(k, depth)] else []
  }

  function Spent(b: Bh): Bh {
    b.(scheduled := false, idle := false)
  }

  /** Callbacks that do nothing: those due have run, in the order of the list, and are not due any more; nothing
      else has happened. */
  ghost predicate Quiet(s: History, bhs: seq<Bh>, log: seq<Event>, depth: nat, done: nat) {
    && done <= |s.list| && |bhs| == |s.bhs|
    && log == s.log + AllRuns(s.bhs, s.list[..done], depth)
    && forall k :: 0 <= k < |bhs| ==>
         SameFlags(bhs[k], if k in s.list[..done] && Due(s.bhs, k) then Spent(s.bhs[k]) else s.bhs[k])
  }

  lemma WalkStarts(s: History, depth: nat)
    ensures Polled(s, s.bhs, s.log, depth, 0) && !RanBusy(s.log, |s.log|, depth)
    ensures Quiet(s, s.bhs, s.log, depth, 0) && !SomeBusy(s, 0)
  {
  }

  lemma SkipPolls(s: History, bhs: seq<Bh>, log: seq<Event>, depth: nat, done: nat)
    requires Polled(s, bhs, log, depth, done) && done < |s.list| && !Due(bhs, s.list[done])
    ensures Polled(s, bhs, log, depth, done + 1)
  {
    hide Bracketed, RunsOf;
    assert s.list[..done + 1][..done] == s.list[..done];
  }

  lemma SkipQuiet(s: History, bhs: seq<Bh>, log: seq<Event>, depth: nat, done: nat)
    requires Quiet(s, bhs, log, depth, done) && done < |s.list| && !Due(bhs, s.list[done]) && Once(s.list)
    ensures Quiet(s, bhs, log, depth, done + 1) && (SomeBusy(s, done + 1) <==> SomeBusy(s, done))
  {
    assert s.list[..done + 1][..done] == s.list[..done];
    assert s.list[done] !in s.list[..done];
  }

  lemma VisitPolls(s: History, t: History, u: History, depth: nat, done: nat, bh: nat, inner: seq<Event>)
    requires Polled(s, t.bhs, t.log, depth, done) && Visited(t, u, bh, depth, inner)
    requires done < |s.list| && s.list[done] == bh && forall i :: 0 <= i < |s.list| ==> s.list[i] < |t.bhs|
    ensures Polled(s, u.bhs, u.log, depth, done + 1)
  {
    hide Bracketed, RunsOf, OnlyLate, Sub;
    var visit := [Run(bh, t.bhs[bh].idle, depth)] + inner + [Ret(bh, depth)];
    BracketedVisit(t.log, |s.log|, depth, bh, t.bhs[bh].idle, inner);
    assert u.log[|s.log|..] == t.log[|s.log|..] + visit;
    RunsJoin(t.log[|s.log|..], visit, depth);
    RunsOfVisit(bh, t.bhs[bh].idle, depth, inner);
    SubAppend(RunsOf(t.log[|s.log|..], depth), s.list[..done], bh);
    assert s.list[..done + 1] == s.list[..done] + [bh];
    LateVisit(s, t, u, depth, done, bh, inner);
  }

  lemma BracketedVisit(log: seq<Event>, n: nat, depth: nat, bh: nat, idle: bool, inner: seq<Event>)
    requires n <= |log| && Bracketed(log, n, depth) && Deeper(inner, depth)
    ensures Bracketed(log + ([Run(bh, idle, depth)] + inner + [Ret(bh, depth)]), n, depth)
  {
    var log' := log + ([Run(bh, idle, depth)] + inner + [Ret(bh, depth)]);
    var j := |log|;
    assert log'[j] == Run(bh, idle, depth) && log'[|log'| - 1] == Ret(bh, depth);
    assert forall m :: j < m < |log'| - 1 ==> log'[m] == inner[m - j - 1] && !Own(log'[m], depth);
    forall k | n <= k < |log'| ensures Own(log'[k], depth) || Inside(log', n, k, depth) {
      if k < j {
        assert log'[k] == log[k];
        if !Own(log[k], depth) {
          var i :| n <= i < k && log[i].Run? && log[i].depth == depth && forall m :: i < m < k ==> !Own(log[m], depth);
          assert log'[i] == log[i] && forall m :: i < m < k ==> log'[m] == log[m];
        }
      }
    }
  }

  lemma {:induction false} RunsJoin(a: seq<Event>, b: seq<Event>, depth: nat)
    ensures RunsOf(a + b, depth) == RunsOf(a, depth) + RunsOf(b, depth)
  {
    if b == [] {
      assert a + b == a;
    } else {
      RunsJoin(a, b[..|b| - 1], depth);
      assert (a + b)[..|a + b| - 1] == a + b[..|b| - 1];
    }
  }

  lemma {:induction false} NoRunsOf(events: seq<Event>, depth: nat)
    requires Deeper(events, depth)
    ensures RunsOf(events, depth) == []
  {
    if events != [] {
      NoRunsOf(events[..|events| - 1], depth);
    }
  }

  lemma RunsOfVisit(bh: nat, idle: bool, depth: nat, inner: seq<Event>)
    requires Deeper(inner, depth)
    ensures RunsOf([Run(bh, idle, depth)] + inner + [Ret(bh, depth)], depth) == [bh]
  {
    RunsJoin([Run(bh, idle, depth)], inner, depth);
    RunsJoin([Run(bh, idle, depth)] + inner, [Ret(bh, depth)], depth);
    NoRunsOf(inner, depth);
    assert RunsOf([Run(bh, idle, depth)], depth) == [bh] && RunsOf([Ret(bh, depth)], depth) == [];
  }

  lemma SubAppend(a: seq<nat>, b: seq<nat>, x: nat)
    requires Sub(a, b)
    ensures Sub(a + [x], b + [x])
  {
    assert (a + [x])[..|a|] == a && (b + [x])[..|b|] == b;
  }

  lemma LateVisit(s: History, t: History, u: History, depth: nat, done: nat, bh: nat, inner: seq<Event>)
    requires s.log <= t.log && OnlyLate(s.list, t.bhs, t.log, |s.log|, depth, done) && Visited(t, u, bh, depth, inner)
    requires done < |s.list| && s.list[done] == bh && forall i :: 0 <= i < |s.list| ==> s.list[i] < |t.bhs|
    ensures OnlyLate(s.list, u.bhs, u.log, |s.log|, depth, done + 1)
  {
    var n, j := |s.log|, |t.log|;
    assert forall i :: 0 <= i < j ==> u.log[i] == t.log[i];
    assert u.log[j] == Run(bh, t.bhs[bh].idle, depth);
    forall q: nat | q < done + 1 && q < |s.list| && Due(u.bhs, s.list[q]) ensures SchedLate(s.list, u.log, n, depth, q) {
      var k := s.list[q];
      if k == bh || !Due(t.bhs, k) {
        var i :| 0 <= i < |inner| && inner[i] == Sched(k);
        assert u.log[j + 1 + i] == Sched(k);
        assert s.list[q..][done - q] == bh;
      } else {
        var j', i :| n <= j' < i < |t.log| && t.log[j'].Run? && t.log[j'].depth == depth
                     && t.log[j'].id in s.list[q..] && t.log[i] == Sched(k);
        assert u.log[j'] == t.log[j'] && u.log[i] == t.log[i];
      }
    }
  }

  lemma VisitBusy(s: History, t: History, u: History, depth: nat, bh: nat, inner: seq<Event>)
    requires s.log <= t.log && Visited(t, u, bh, depth, inner)
    ensures RanBusy(u.log, |s.log|, depth) <==> RanBusy(t.log, |s.log|, depth) || !t.bhs[bh].idle
  {
    var n, j := |s.log|, |t.log|;
    assert forall i :: 0 <= i < j ==> u.log[i] == t.log[i];
    assert u.log[j] == Run(bh, t.bhs[bh].idle, depth) && u.log[|u.log| - 1] == Ret(bh, depth);
    assert forall m :: j < m < |u.log| - 1 ==> u.log[m] == inner[m - j - 1];
    if k :| n <= k < j && t.log[k].Run? && t.log[k].depth == depth && !t.log[k].idle {
      assert u.log[k] == t.log[k];
    }
  }

  lemma VisitQuiet(s: History, t: History, u: History, depth: nat, done: nat, bh: nat)
    requires Quiet(s, t.bhs, t.log, depth, done) && Visited(t, u, bh, depth, []) && Due(t.bhs, bh)
    requires done < |s.list| && s.list[done] == bh && Once(s.list) && u.bhs == t.bhs[bh := Spent(t.bhs[bh])]
    ensures Quiet(s, u.bhs, u.log, depth, done + 1)
    ensures SomeBusy(s, done + 1) <==> SomeBusy(s, done) || !t.bhs[bh].idle
  {
    var ids := s.list[..done + 1];
    assert ids[..done] == s.list[..done] && ids[done] == bh && bh !in s.list[..done];
    assert SameFlags(t.bhs[bh], s.bhs[bh]);
    assert forall k :: k in ids <==> k in s.list[..done] || k == bh;
    assert [Run(bh, t.bhs[bh].idle, depth)] + [] + [Ret(bh, depth)] == [Run(bh, s.bhs[bh].idle, depth), Ret(bh, depth)];
    assert u.log == s.log + AllRuns(s.bhs, ids, depth);
  }

  // ----- the walk as a whole -----

  /** The walk begun at `s` still has `left` to go through. */
  ghost predicate Walking(s: History, t: History, script: seq<seq<Action>>, rest: seq<seq<Action>>, ret: bool, depth: nat,
                          left: seq<nat>)
    requires depth > 0
  {
    && Once(s.list) && (forall i :: 0 <= i < |s.list| ==> s.list[i] < |s.bhs|)
    && EndsWith(t.list, left) && EndsWith(s.list, left) && Grown(s, t, depth - 1)
    && Polled(s, t.bhs, t.log, depth, |s.list| - |left|)
    && Used(script, rest, CountRuns(t.log[|s.log|..])) && |rest| <= |script|
    && (ret <==> RanBusy(t.log, |s.log|, depth))
    && (script == [] ==> Quiet(s, t.bhs, t.log, depth, |s.list| - |left|) && (ret <==> SomeBusy(s, |s.list| - |left|)))
  }

  lemma WalkingStarts(s: History, script: seq<seq<Action>>, depth: nat)
    requires depth > 0 && Once(s.list) && forall i :: 0 <= i < |s.list| ==> s.list[i] < |s.bhs|
    ensures Walking(s, s, script, script, false, depth, s.list)
  {
    hide Grown, Polled, RanBusy, CountRuns, Used, Quiet, SomeBusy;
    GrownNone(s, depth - 1);
    NoRuns(s.log);
    GrownLog(s, s, depth - 1);
    WalkStarts(s, depth);
  }

  lemma WalkingVisit(s: History, t: History, u: History, script: seq<seq<Action>>, rest1: seq<seq<Action>>,
                     rest: seq<seq<Action>>, ret1: bool, ret: bool, depth: nat, left: seq<nat>, inner: seq<Event>)
    requires depth > 0 && left != [] && Walking(s, t, script, rest1, ret1, depth, left) && Due(t.bhs, left[0])
    requires Grown(t, u, depth - 1) && Visited(t, u, left[0], depth, inner) && |rest| <= |rest1|
    requires Used(rest1, rest, CountRuns([Run(left[0], t.bhs[left[0]].idle, depth)] + inner + [Ret(left[0], depth)]))
    requires rest1 == [] ==> inner == [] && u.bhs == t.bhs[left[0] := t.bhs[left[0]].(scheduled := false, idle := false)]
    requires ret <==> ret1 || !t.bhs[left[0]].idle
    ensures Walking(s, u, script, rest, ret, depth, left[1..]) && EndsWith(u.list, left[1..])
  {
    hide Grown, Polled, RanBusy, CountRuns, Used, Quiet, SomeBusy, Visited, Once;
    var done, bh := |s.list| - |left|, left[0];
    LeftIs(s.list, left);
    GrownLog(s, t, depth - 1);
    GrownTwice(s, t, u, depth - 1);
    UsedVisit(script, rest1, rest, s.log, t, u, bh, depth, inner);
    VisitPolls(s, t, u, depth, done, bh, inner);
    VisitBusy(s, t, u, depth, bh, inner);
    if script == [] {
      VisitQuiet(s, t, u, depth, done, bh);
    }
    StillEnds(t, u, depth - 1, left);
    LeftNext(s.list, left);
  }

  lemma WalkingSkip(s: History, t: History, script: seq<seq<Action>>, rest: seq<seq<Action>>, ret: bool, depth: nat,
                    left: seq<nat>)
    requires depth > 0 && left != [] && Walking(s, t, script, rest, ret, depth, left) && !Due(t.bhs, left[0])
    ensures Walking(s, t, script, rest, ret, depth, left[1..]) && EndsWith(t.list, left[1..])
  {
    hide Grown, Polled, RanBusy, CountRuns, Used, Quiet, SomeBusy, Once;
    var done := |s.list| - |left|;
    LeftIs(s.list, left);
    SkipPolls(s, t.bhs, t.log, depth, done);
    if script == [] {
      SkipQuiet(s, t.bhs, t.log, depth, done);
    }
    LeftNext(t.list, left);
    LeftNext(s.list, left);
  }

  lemma WalkingEnds(s: History, t: History, script: seq<seq<Action>>, rest: seq<seq<Action>>, ret: bool, depth: nat,
                    left: seq<nat>)
    requires depth > 0 && left == [] && Walking(s, t, script, rest, ret, depth, left)
    ensures Grown(s, t, depth - 1) && Polled(s, t.bhs, t.log, depth, |s.list|)
    ensures |s.log| <= |t.log| && Used(script, rest, CountRuns(t.log[|s.log|..])) && |rest| <= |script|
    ensures ret <==> RanBusy(t.log, |s.log|, depth)
    ensures script == [] ==> Quiet(s, t.bhs, t.log, depth, |s.list|) && (ret <==> SomeBusy(s, |s.list|))
  {
    hide Polled, RanBusy, CountRuns, Used, Quiet, SomeBusy, Follows;
  }

  lemma HeadOf(left: seq<nat>)
    ensures Head(left) == NULL <==> left == []
    ensures left != [] ==> Head(left) == left[0]
  {
  }

  lemma IsDue(bhs: seq<Bh>, k: nat)
    requires k < |bhs|
    ensures Due(bhs, k) <==> !bhs[k].deleted && bhs[k].scheduled
  {
  }

  lemma EndsWithItself(list: seq<nat>)
    ensures EndsWith(list, list)
  {
  }

  lemma ListIs(bhs: seq<Bh>, first: int, list: seq<nat>)
    requires Linked(bhs, first, list)
    ensures Once(list) && forall i :: 0 <= i < |list| ==> list[i] < |bhs|
  {
  }

  /** So the first thing that has happened to those that were due is their callback, or that they were dropped. */
  lemma AllAnswered(s: History, t: History, depth: nat)
    requires depth > 0 && Grown(s, t, depth - 1) && Polled(s, t.bhs, t.log, depth, |s.list|)
    ensures forall k: nat :: k in s.list && Due(s.bhs, k) ==> Answered(t.log, |s.log|, k, s.bhs[k].idle)
  {
    hide Bracketed, Sub, RunsOf, Answered;
    forall k: nat | k in s.list && Due(s.bhs, k) ensures Answered(t.log, |s.log|, k, s.bhs[k].idle) {
      assert !Waits(s.bhs[k], t.bhs, t.log, |s.log|, k) by {
        if Due(t.bhs, k) {
          var q :| 0 <= q < |s.list| && s.list[q] == k;
          assert SchedLate(s.list, t.log, |s.log|, depth, q);
          var j, i :| |s.log| <= j < i < |t.log| && t.log[j].Run? && t.log[i] == Sched(k);
          assert Touches(t.log[i], k);
        }
      }
    }
  }

  /** In the words of the list: the first thing that happens to a bottom half that was due is that this poll calls
      its callback, with the kind of scheduling that it had, unless something a callback did comes first. */
  lemma DueIsCalled(s: History, bhs: seq<Bh>, log: seq<Event>, depth: nat, k: nat)
    requires Polled(s, bhs, log, depth, |s.list|) && k < |s.bhs| && Answered(log, |s.log|, k, s.bhs[k].idle)
    ensures exists i :: |s.log| <= i < |log| && Untouched(log, |s.log|, i, k) &&
              (log[i] == Run(k, s.bhs[k].idle, depth) || (Touches(log[i], k) && Inside(log, |s.log|, i, depth)))
  {
    hide Inside, Sub, RunsOf, OnlyLate;
    var i :| |s.log| <= i < |log| && Answers(log[i], k, s.bhs[k].idle) && Untouched(log, |s.log|, i, k);
    assert Own(log[i], depth) || Inside(log, |s.log|, i, depth);
  }

  lemma SweptPolled(s: History, bhs0: seq<Bh>, bhs: seq<Bh>, log: seq<Event>, depth: nat, done: nat)
    requires Polled(s, bhs0, log, depth, done) && AllSame(bhs0, bhs)
    ensures Polled(s, bhs, log, depth, done)
    ensures Quiet(s, bhs0, log, depth, done) ==> Quiet(s, bhs, log, depth, done)
  {
    hide Bracketed, Sub, RunsOf, AllRuns, SchedLate;
    forall q: nat | q < done && q < |s.list| && Due(bhs, s.list[q]) ensures SchedLate(s.list, log, |s.log|, depth, q) {
      assert SameFlags(bhs0[s.list[q]], bhs[s.list[q]]);
      assert Due(bhs0, s.list[q]);
    }
    if Quiet(s, bhs0, log, depth, done) {
      forall k | 0 <= k < |bhs|
        ensures SameFlags(bhs[k], if k in s.list[..done] && Due(s.bhs, k) then Spent(s.bhs[k]) else s.bhs[k])
      {
        assert SameFlags(bhs0[k], bhs[k]);
      }
    }
  }

  // ----- freeing -----

  /** The numbers on the list whose bottom half is not deleted. */
  function Live(bhs: seq<Bh>, list: seq<nat>): seq<nat> {
    if list == [] then []
    else (if list[0] < |bhs| && bhs[list[0]].deleted then [] else [list[0]]) + Live(bhs, list[1..])
  }

  lemma LiveStep(bhs: seq<Bh>, kept: seq<nat>, todo: seq<nat>)
    ensures todo == [] ==> kept + Live(bhs, todo) == kept
    ensures todo != [] && todo[0] < |bhs| ==>
              kept + Live(bhs, todo) ==
              (if bhs[todo[0]].deleted then kept else kept + [todo[0]]) + Live(bhs, todo[1..])
  {
  }

  lemma {:induction false} LiveOnly(bhs: seq<Bh>, list: seq<nat>, k: nat)
    requires k < |bhs| && k in Live(bhs, list)
    ensures !bhs[k].deleted
  {
    if k in Live(bhs, list[1..]) {
      LiveOnly(bhs, list[1..], k);
    }
  }

  function Last(kept: seq<nat>): int {
    if kept == [] then NULL else kept[|kept| - 1]
  }

  predicate SameFlags(a: Bh, b: Bh) {
    a.scheduled == b.scheduled && a.idle == b.idle && a.deleted == b.deleted
  }

  predicate AllSame(bhs0: seq<Bh>, bhs: seq<Bh>) {
    |bhs| == |bhs0| && forall k :: 0 <= k < |bhs| ==> SameFlags(bhs0[k], bhs[k])
  }

  lemma SameAll(a: seq<Bh>, b: seq<Bh>, c: seq<Bh>)
    ensures AllSame(a, a) && (AllSame(a, b) && AllSame(b, c) ==> AllSame(a, c))
  {
  }

  lemma SameOne(a: seq<Bh>, b: seq<Bh>, k: int)
    requires AllSame(a, b)
    ensures |a| == |b| && (0 <= k < |a| ==> SameFlags(a[k], b[k]))
  {
  }

  lemma KeepsFlags(bhs0: seq<Bh>, bhs: seq<Bh>, log: seq<Event>)
    requires Flags(bhs0, log) && AllSame(bhs0, bhs)
    ensures Flags(bhs, log)
  {
  }

  /** Taking the first of `todo` out of the list, behind `kept`. */
  lemma Unlink(bhs: seq<Bh>, first: int, kept: seq<nat>, todo: seq<nat>)
    requires Linked(bhs, first, kept + todo) && todo != [] && todo[0] < |bhs| && bhs[todo[0]].deleted
    ensures bhs[todo[0]].next == Head(todo[1..])
    ensures kept == [] ==> Linked(bhs[todo[0] := bhs[todo[0]].(freed := true)], Head(todo[1..]), kept + todo[1..])
    ensures kept != [] ==>
              && 0 <= Last(kept) < |bhs|
              && var b := bhs[Last(kept) := bhs[Last(kept)].(next := Head(todo[1..]))];
                 Linked(b[todo[0] := b[todo[0]].(freed := true)], first, kept + todo[1..])
  {
    hide Chain, Once, Freed;
    UnlinkChain(bhs, kept, todo);
    UnlinkOnce(kept, todo);
    UnlinkFreed(bhs, kept, todo);
    var b := if kept == [] then bhs else bhs[Last(kept) := bhs[Last(kept)].(next := Head(todo[1..]))];
    SameFreed(bhs[todo[0] := bhs[todo[0]].(freed := true)], b[todo[0] := b[todo[0]].(freed := true)], kept + todo[1..]);
  }

  lemma SameFreed(a: seq<Bh>, b: seq<Bh>, list: seq<nat>)
    requires Freed(a, list) && |a| == |b|
    requires forall k :: 0 <= k < |a| ==> a[k].freed == b[k].freed && a[k].deleted == b[k].deleted
    ensures Freed(b, list)
  {
  }

  lemma UnlinkChain(bhs: seq<Bh>, kept: seq<nat>, todo: seq<nat>)
    requires Chain(bhs, kept + todo) && Once(kept + todo) && todo != []
    ensures todo[0] < |bhs| && bhs[todo[0]].next == Head(todo[1..])
    ensures kept == [] ==> Chain(bhs[todo[0] := bhs[todo[0]].(freed := true)], kept + todo[1..])
    ensures kept != [] ==>
              && 0 <= Last(kept) < |bhs| && Last(kept) != todo[0]
              && var b := bhs[Last(kept) := bhs[Last(kept)].(next := Head(todo[1..]))];
                 Chain(b[todo[0] := b[todo[0]].(freed := true)], kept + todo[1..])
  {
    var list, list', n := kept + todo, kept + todo[1..], |kept|;
    assert list[n] == todo[0] && (|todo| > 1 ==> list[n + 1] == todo[1]);
    assert kept != [] ==> list[n - 1] == Last(kept);
    assert forall i :: 0 <= i < |list'| ==> list'[i] == list[Old(i, n)];
  }

  /** Where the `i`th of the new list was in the old one. */
  function Old(i: nat, n: nat): nat {
    if i < n then i else i + 1
  }

  lemma UnlinkOnce(kept: seq<nat>, todo: seq<nat>)
    requires Once(kept + todo) && todo != []
    ensures Once(kept + todo[1..]) && todo[0] !in kept + todo[1..]
  {
    var list, list', n := kept + todo, kept + todo[1..], |kept|;
    assert forall i :: 0 <= i < |list'| ==> list'[i] == list[Old(i, n)];
    assert list[n] == todo[0];
  }

  lemma UnlinkFreed(bhs: seq<Bh>, kept: seq<nat>, todo: seq<nat>)
    requires Freed(bhs, kept + todo) && Once(kept + todo) && todo != [] && todo[0] < |bhs| && bhs[todo[0]].deleted
    ensures Freed(bhs[todo[0] := bhs[todo[0]].(freed := true)], kept + todo[1..])
  {
    UnlinkOnce(kept, todo);
    hide Once;
    assert kept + todo == kept + ([todo[0]] + todo[1..]);
    assert forall k :: k in kept + todo <==> k == todo[0] || k in kept + todo[1..];
  }

  lemma Swept(bhs0: seq<Bh>, bhs: seq<Bh>, first: int, list0: seq<nat>)
    requires Linked(bhs, first, Live(bhs0, list0)) && AllSame(bhs0, bhs)
    ensures forall k :: 0 <= k < |bhs| ==> (bhs[k].freed <==> bhs[k].deleted)
  {
    forall k | 0 <= k < |bhs| ensures bhs[k].freed <==> bhs[k].deleted {
      if k in Live(bhs0, list0) {
        LiveOnly(bhs0, list0, k);
      }
    }
  }
}
