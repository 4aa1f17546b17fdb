/** The buffered migration file: a queue in front of a backend that may take part of what it is given, ask
    to be tried again later, or fail (src/buffered_file.c, src/savevm.c:438-446). */
module BufferedFile {
  type Byte = bv8

  const EAGAIN := 11
  const EINVAL := 22

  // ----- what the operations compute -----

  /** `script` holds the backend's next answers; after them it takes all it is given.  `delivered` is what
      it has taken so far. */
  datatype File = File(script: seq<int>, delivered: seq<Byte>, buffered: seq<Byte>,
                       freeze: bool, xfer: nat, limit: nat, error: int)

  /** The backend's answer to an offer of `size` bytes. */
  function Answer(script: seq<int>, size: nat): int {
    if script == [] || script[0] > size then size else script[0]
  }

  function Later(script: seq<int>): seq<int> {
    if script == [] then [] else script[1..]
  }

  /** `buffered_flush`, past its test for an error */
  function FlushLoop(f: File): File
    decreases |f.buffered|
  {
    if f.buffered == [] then f
    else
      var r := Answer(f.script, |f.buffered|);
      var g := f.(script := Later(f.script));
      if r == -EAGAIN then g.(freeze := true)
      else if r <= 0 then g.(error := r)
      else FlushLoop(g.(delivered := f.delivered + f.buffered[..r], buffered := f.buffered[r..]))
  }

  function Flush(f: File): File {
    if f.error != 0 then f else FlushLoop(f)
  }

  /** The loop of `buffered_put_buffer`: what remains to be buffered, or nothing after an error. */
  function PutLoop(f: File, buf: seq<Byte>): (File, seq<Byte>, bool)
    decreases |buf|
  {
    if f.freeze || buf == [] || f.xfer > f.limit then (f, buf, true)
    else
      var r := Answer(f.script, |buf|);
      var g := f.(script := Later(f.script));
      if r == -EAGAIN then (g.(freeze := true), buf, true)
      else if r <= 0 then (g.(error := r), [], false)
      else PutLoop(g.(delivered := f.delivered + buf[..r], xfer := f.xfer + r), buf[r..])
  }

  /** `buffered_put_buffer`, with its return value */
  function Put(f: File, buf: seq<Byte>): (File, int) {
    if f.error != 0 then (f, f.error)
    else
      var (g, rest, ok) := PutLoop(Flush(f.(freeze := false)), buf);
      if ok then (g.(buffered := g.buffered + rest), |buf|) else (g, -EINVAL)
  }

  /** `buffered_rate_tick` of a file without an error */
  function Tick(f: File): File {
    if f.freeze then f else Flush(f.(xfer := 0))
  }

  // ----- first in, first out -----

  /** The backend never answers 0. */
  ghost predicate NeverZero(script: seq<int>) {
    forall i :: 0 <= i < |script| ==> script[i] != 0
  }

  /** All bytes taken in, in order. */
  function Stream(f: File): seq<Byte> {
    f.delivered + f.buffered
  }

  lemma {:induction false} FlushKeepsStream(f: File)
    requires NeverZero(f.script) && f.error == 0
    ensures Stream(FlushLoop(f)) == Stream(f) && f.delivered <= FlushLoop(f).delivered
    ensures NeverZero(FlushLoop(f).script)
    ensures FlushLoop(f).error == 0 && !FlushLoop(f).freeze ==> FlushLoop(f).buffered == []
    decreases |f.buffered|
  {
    if f.buffered != [] {
      var r := Answer(f.script, |f.buffered|);
      if r > 0 {
        var g := f.(script := Later(f.script), delivered := f.delivered + f.buffered[..r], buffered := f.buffered[r..]);
        assert f.buffered[..r] + f.buffered[r..] == f.buffered;
        assert Stream(g) == Stream(f);
        FlushKeepsStream(g);
      }
    }
  }

  /** Direct writes start with an empty buffer, and add to the stream in order. */
  lemma {:induction false} PutLoopKeepsStream(f: File, buf: seq<Byte>)
    requires NeverZero(f.script) && f.error == 0 && (!f.freeze ==> f.buffered == [])
    ensures var (g, rest, ok) := PutLoop(f, buf);
            && NeverZero(g.script) && (ok <==> g.error == 0) && g.buffered == f.buffered
            && (ok ==> g.delivered + g.buffered + rest == Stream(f) + buf)
    decreases |buf|
  {
    if !f.freeze && buf != [] && f.xfer <= f.limit {
      var r := Answer(f.script, |buf|);
      if r > 0 {
        var g := f.(script := Later(f.script), delivered := f.delivered + buf[..r], xfer := f.xfer + r);
        PutLoopKeepsStream(g, buf[r..]);
        assert buf[..r] + buf[r..] == buf;
        assert Stream(g) + buf[r..] == Stream(f) + buf;
      }
    }
  }

  /** While the file has no error, a put adds its bytes to the end of the stream, whatever the backend takes. */
  lemma PutIsFifo(f: File, buf: seq<Byte>)
    requires NeverZero(f.script) && f.error == 0 && Put(f, buf).0.error == 0
    ensures Stream(Put(f, buf).0) == Stream(f) + buf && Put(f, buf).1 == |buf|
    ensures NeverZero(Put(f, buf).0.script)
  {
    hide FlushLoop, PutLoop;
    var g := f.(freeze := false);
    FlushKeepsStream(g);
    FlushError(g);
    if Flush(g).error == 0 {
      PutLoopKeepsStream(Flush(g), buf);
    } else {
      PutLoopError(Flush(g), buf);
    }
  }

  lemma FlushError(f: File)
    requires f.error == 0
    ensures Flush(f) == FlushLoop(f)
  {
  }

  lemma {:induction false} PutLoopError(f: File, buf: seq<Byte>)
    requires NeverZero(f.script) && f.error != 0
    ensures PutLoop(f, buf).0.error != 0 && NeverZero(PutLoop(f, buf).0.script)
    decreases |buf|
  {
    if !f.freeze && buf != [] && f.xfer <= f.limit {
      var r := Answer(f.script, |buf|);
      if r > 0 {
        PutLoopError(f.(script := Later(f.script), delivered := f.delivered + buf[..r], xfer := f.xfer + r), buf[r..]);
      }
    }
  }

  // ----- whole runs -----

  datatype Op = PutOp(buf: seq<Byte>) | TickOp | RateOp(limit: nat)

  function Do(f: File, op: Op): File {
    match op
    case PutOp(buf) => Put(f, buf).0
    case TickOp => if f.error != 0 then f else Tick(f)
    case RateOp(limit) => if f.error != 0 then f else f.(limit := limit / 10)
  }

  function Run(f: File, ops: seq<Op>): File
    decreases |ops|
  {
    if ops == [] then f else Run(Do(f, ops[0]), ops[1..])
  }

  /** All the bytes that the callers put. */
  function Given(ops: seq<Op>): seq<Byte> {
    if ops == [] then [] else (if ops[0].PutOp? then ops[0].buf else []) + Given(ops[1..])
  }

  lemma DoKeepsStream(f: File, op: Op)
    requires NeverZero(f.script) && f.error == 0 && Do(f, op).error == 0
    ensures NeverZero(Do(f, op).script) && Stream(Do(f, op)) == Stream(f) + if op.PutOp? then op.buf else []
  {
    hide FlushLoop, PutLoop, Put;
    match op
    case PutOp(buf) => PutIsFifo(f, buf);
    case TickOp => FlushKeepsStream(f.(xfer := 0));
    case RateOp(_) =>
  }

  lemma {:induction false} ErrorStays(f: File, ops: seq<Op>)
    requires f.error != 0
    ensures Run(f, ops).error != 0
    decreases |ops|
  {
    if ops != [] {
      ErrorStays(Do(f, ops[0]), ops[1..]);
    }
  }

  /** Until the first error, what was delivered and then what is buffered is all that was put, in order: for
      every schedule of partial writes, refusals, ticks and rate changes. */
  lemma {:induction false} RunIsFifo(f: File, ops: seq<Op>)
    requires NeverZero(f.script) && f.error == 0 && Run(f, ops).error == 0
    ensures Stream(Run(f, ops)) == Stream(f) + Given(ops) && NeverZero(Run(f, ops).script)
    decreases |ops|
  {
    hide Do;
    if ops == [] {
      assert Stream(f) + [] == Stream(f);
    } else {
      var g := Do(f, ops[0]);
      if g.error != 0 {
        ErrorStays(g, ops[1..]);
      } else {
        DoKeepsStream(f, ops[0]);
        RunIsFifo(g, ops[1..]);
      }
    }
  }

  /** A flush uses up an answer of the backend, or empties the buffer. */
  lemma {:induction false} FlushShrinks(f: File)
    requires f.buffered != []
    ensures |FlushLoop(f).script| < |f.script| || (FlushLoop(f).script == f.script && FlushLoop(f).buffered == [])
    decreases |f.buffered|
  {
    var r := Answer(f.script, |f.buffered|);
    if r > 0 {
      var g := f.(script := Later(f.script), delivered := f.delivered + f.buffered[..r], buffered := f.buffered[r..]);
      if g.buffered != [] {
        FlushShrinks(g);
      }
    }
  }

  /** The loop of `buffered_close`.  It ends because the backend's refusals do. */
  function CloseLoop(f: File): File
    decreases |f.script|, |f.buffered|
  {
    if f.error != 0 || f.buffered == [] then f
    else
      FlushShrinks(f);
      CloseLoop(Flush(f))
  }

  /** Closing delivers all that was buffered, unless an error comes. */
  lemma {:induction false} CloseDelivers(f: File)
    requires NeverZero(f.script) && f.error == 0 && CloseLoop(f).error == 0
    ensures CloseLoop(f).delivered == Stream(f) && CloseLoop(f).buffered == []
    decreases |f.script|, |f.buffered|
  {
    hide FlushLoop;
    if f.buffered != [] {
      FlushShrinks(f);
      FlushKeepsStream(f);
      if Flush(f).error == 0 {
        CloseDelivers(Flush(f));
      }
    }
  }

  // ----- the rate -----

  lemma {:induction false} FlushIsFree(f: File)
    ensures FlushLoop(f).xfer == f.xfer && FlushLoop(f).limit == f.limit
    decreases |f.buffered|
  {
    if f.buffered != [] {
      var r := Answer(f.script, |f.buffered|);
      if r > 0 {
        FlushIsFree(f.(script := Later(f.script), delivered := f.delivered + f.buffered[..r], buffered := f.buffered[r..]));
      }
    }
  }

  /** Direct writes are counted, and none starts once the count is above the limit. */
  lemma {:induction false} DirectIsCounted(f: File, buf: seq<Byte>)
    ensures var (g, rest, ok) := PutLoop(f, buf);
            && g.limit == f.limit && g.buffered == f.buffered
            && g.xfer - f.xfer == |g.delivered| - |f.delivered| >= 0
            && (g.xfer == f.xfer || g.xfer <= f.limit + |buf|)
            && (f.xfer > f.limit ==> g == f && rest == buf && ok)
    decreases |buf|
  {
    if !f.freeze && buf != [] && f.xfer <= f.limit {
      var r := Answer(f.script, |buf|);
      if r > 0 {
        DirectIsCounted(f.(script := Later(f.script), delivered := f.delivered + buf[..r], xfer := f.xfer + r), buf[r..]);
      }
    }
  }

  /** A put above the limit only buffers, after the flush; below it, it goes beyond the limit by its own size at
      most. */
  lemma PutIsLimited(f: File, buf: seq<Byte>)
    requires f.error == 0
    ensures var h, g := Flush(f.(freeze := false)), Put(f, buf).0;
            && g.limit == f.limit
            && g.xfer - f.xfer == |g.delivered| - |h.delivered| >= 0
            && (g.xfer == f.xfer || g.xfer <= f.limit + |buf|)
            && (f.xfer > f.limit ==> g == h.(buffered := h.buffered + buf))
  {
    hide FlushLoop, PutLoop;
    FlushIsFree(f.(freeze := false));
    DirectIsCounted(Flush(f.(freeze := false)), buf);
  }

  /** A tick lets a file that is neither frozen nor failed write directly again: once its buffer is empty, the next
      put reaches the backend, as far as the backend takes bytes. */
  lemma TickReopens(f: File, buf: seq<Byte>)
    requires f.error == 0 && !f.freeze && buf != []
    ensures Tick(f).xfer == 0 && Tick(f).limit == f.limit
    ensures Tick(f).error == 0 && Tick(f).buffered == [] && Answer(Tick(f).script, |buf|) > 0 ==>
              |Put(Tick(f), buf).0.delivered| > |Tick(f).delivered|
  {
    hide FlushLoop;
    FlushIsFree(f.(xfer := 0));
    var t := Tick(f);
    if t.error == 0 && t.buffered == [] && Answer(t.script, |buf|) > 0 {
      var h, r := t.(freeze := false), Answer(t.script, |buf|);
      FlushNothing(h);
      DirectIsCounted(h.(script := Later(h.script), delivered := h.delivered + buf[..r], xfer := h.xfer + r), buf[r..]);
    }
  }

  lemma FlushNothing(f: File)
    requires f.buffered == []
    ensures FlushLoop(f) == f
  {
  }

  /** Over whole runs: since the last tick, no more bytes have been written directly than the limit and one put. */
  lemma {:induction false} RunIsLimited(f: File, ops: seq<Op>, most: nat)
    requires f.xfer <= f.limit + most
    requires forall i :: 0 <= i < |ops| ==> !ops[i].RateOp? && (ops[i].PutOp? ==> |ops[i].buf| <= most)
    ensures Run(f, ops).xfer <= f.limit + most && Run(f, ops).limit == f.limit
    decreases |ops|
  {
    hide FlushLoop, PutLoop, Put, Tick;
    if ops != [] {
      DoIsLimited(f, ops[0], most);
      RunIsLimited(Do(f, ops[0]), ops[1..], most);
    }
  }

  lemma DoIsLimited(f: File, op: Op, most: nat)
    requires f.xfer <= f.limit + most && !op.RateOp? && (op.PutOp? ==> |op.buf| <= most)
    ensures Do(f, op).xfer <= f.limit + most && Do(f, op).limit == f.limit
  {
    hide FlushLoop, PutLoop;
    if op.PutOp? && f.error == 0 {
      PutIsLimited(f, op.buf);
    } else {
      FlushIsFree(f.(xfer := 0));
    }
  }

  // ----- when a put keeps the order -----

  /** How a flush ends: with the buffer empty, refused for now, or with an answer of 0 or an error and bytes left. */
  datatype End = Emptied | Refused | Stuck

  /** The answers that a flush of `n` bytes meets: how it ends, and the answers that are left. */
  function FlushAnswers(script: seq<int>, n: nat): (End, seq<int>)
    decreases n
  {
    if n == 0 then (Emptied, script)
    else
      var r := Answer(script, n);
      if r == -EAGAIN then (Refused, Later(script))
      else if r <= 0 then (Stuck, Later(script))
      else FlushAnswers(Later(script), n - r)
  }

  /** The direct loop, with `m` bytes to put, delivers some of them. */
  predicate DirectTakes(script: seq<int>, m: nat, xfer: nat, limit: nat) {
    m > 0 && xfer <= limit && Answer(script, m) > 0
  }

  /** The direct loop ends with an answer of 0 or an error, and bytes left. */
  predicate DirectStuck(script: seq<int>, m: nat, xfer: nat, limit: nat)
    decreases m
  {
    if m == 0 || xfer > limit then false
    else
      var r := Answer(script, m);
      if r == -EAGAIN then false
      else if r <= 0 then true
      else DirectStuck(Later(script), m - r, xfer + r, limit)
  }

  /** The answers that a put of `m` bytes meets, with `n` in the buffer, do no harm: no answer of 0 and no error
      ends the flush before a direct write delivers any bytes, and none ends the direct loop. */
  predicate KeepsOrder(script: seq<int>, n: nat, m: nat, xfer: nat, limit: nat) {
    var (end, rest) := FlushAnswers(script, n);
    end == Refused ||
    (!DirectStuck(rest, m, xfer, limit) && (end == Stuck ==> !DirectTakes(rest, m, xfer, limit)))
  }

  lemma {:induction false} FlushMeets(f: File)
    ensures var g, (end, rest) := FlushLoop(f), FlushAnswers(f.script, |f.buffered|);
            && g.script == rest && Stream(g) == Stream(f) && g.xfer == f.xfer && g.limit == f.limit
            && (end == Emptied <==> g.buffered == []) && g.freeze == (f.freeze || end == Refused)
            && (forall x :: x in g.buffered ==> x in f.buffered)
            && f.delivered <= g.delivered
    decreases |f.buffered|
  {
    if f.buffered != [] {
      var r := Answer(f.script, |f.buffered|);
      if r > 0 {
        var g := f.(script := Later(f.script), delivered := f.delivered + f.buffered[..r], buffered := f.buffered[r..]);
        assert f.buffered[..r] + f.buffered[r..] == f.buffered;
        assert Stream(g) == Stream(f);
        FlushMeets(g);
      }
    }
  }

  lemma {:induction false} DirectMeets(f: File, buf: seq<Byte>) returns (m: nat)
    requires !f.freeze
    ensures m <= |buf| && (m > 0 <==> DirectTakes(f.script, |buf|, f.xfer, f.limit))
    ensures var (g, rest, ok) := PutLoop(f, buf);
            && g.buffered == f.buffered && g.delivered == f.delivered + buf[..m]
            && ok == !DirectStuck(f.script, |buf|, f.xfer, f.limit)
            && (if ok then rest == buf[m..] else m < |buf| && rest == [])
    decreases |buf|
  {
    m := 0;
    if buf != [] && f.xfer <= f.limit {
      var r := Answer(f.script, |buf|);
      if r > 0 {
        var g := f.(script := Later(f.script), delivered := f.delivered + buf[..r], xfer := f.xfer + r);
        var n := DirectMeets(g, buf[r..]);
        m := r + n;
        assert buf[..r] + buf[r..][..n] == buf[..m] && buf[r..][n..] == buf[m..];
      }
    }
  }

  /** What a put comes to: `m` of its bytes are delivered past what is left in the buffer after the flush. */
  lemma PutComesTo(f: File, buf: seq<Byte>) returns (m: nat)
    requires f.error == 0
    ensures var g, (end, rest) := FlushLoop(f.(freeze := false)), FlushAnswers(f.script, |f.buffered|);
            var h := Put(f, buf).0;
            && Stream(g) == Stream(f) && (g.buffered == [] <==> end == Emptied)
            && (forall x :: x in g.buffered ==> x in f.buffered) && f.delivered <= g.delivered
            && m <= |buf| && h.delivered == g.delivered + buf[..m]
            && (m > 0 <==> end != Refused && DirectTakes(rest, |buf|, f.xfer, f.limit))
            && h.buffered ==
               g.buffered + (if end != Refused && DirectStuck(rest, |buf|, f.xfer, f.limit) then [] else buf[m..])
            && (end != Refused && DirectStuck(rest, |buf|, f.xfer, f.limit) ==> m < |buf|)
  {
    hide FlushLoop, PutLoop, FlushAnswers, DirectStuck, DirectTakes;
    var f0 := f.(freeze := false);
    var g := FlushLoop(f0);
    FlushMeets(f0);
    if g.freeze {
      m := 0;
      PutRound(g, buf);
      assert g.delivered + buf[..0] == g.delivered;
    } else {
      m := DirectMeets(g, buf);
    }
  }

  /** Where the answers do no harm a put adds its bytes to the end of the stream. */
  lemma PutInOrder(f: File, buf: seq<Byte>)
    requires f.error == 0 && KeepsOrder(f.script, |f.buffered|, |buf|, f.xfer, f.limit)
    ensures Stream(Put(f, buf).0) == Stream(f) + buf
  {
    hide Put, FlushLoop, FlushAnswers, DirectStuck, DirectTakes;
    var m := PutComesTo(f, buf);
    var g := FlushLoop(f.(freeze := false));
    assert buf[..m] + buf[m..] == buf;
    if m == 0 {
      assert g.delivered + buf[..0] == g.delivered && buf[0..] == buf;
      assert g.delivered + (g.buffered + buf) == Stream(g) + buf;
    } else {
      assert g.delivered + buf[..m] + ([] + buf[m..]) == Stream(g) + buf;
    }
  }

  /** The stream has gone wrong for good: a byte delivered is not the right one, or bytes are missing. */
  ghost predicate Broken(f: File, want: seq<Byte>) {
    || |Stream(f)| < |want|
    || exists i :: 0 <= i < |f.delivered| && i < |want| && f.delivered[i] != want[i]
  }

  lemma BrokenDiffers(f: File, want: seq<Byte>)
    requires Broken(f, want)
    ensures Stream(f) != want
  {
    if i :| 0 <= i < |f.delivered| && i < |want| && f.delivered[i] != want[i] {
      assert Stream(f)[i] == f.delivered[i];
    }
  }

  /** Where they do harm, bytes are lost, or overtake others; whenever the first byte put differs from those in
      the buffer, that is seen. */
  lemma PutBreaks(f: File, buf: seq<Byte>)
    requires f.error == 0 && !KeepsOrder(f.script, |f.buffered|, |buf|, f.xfer, f.limit)
    requires buf != [] ==> buf[0] !in f.buffered
    ensures Broken(Put(f, buf).0, Stream(f) + buf)
  {
    hide Put, FlushLoop, FlushAnswers, DirectStuck, DirectTakes;
    var m := PutComesTo(f, buf);
    var g, h, want := FlushLoop(f.(freeze := false)), Put(f, buf).0, Stream(f) + buf;
    if DirectStuck(FlushAnswers(f.script, |f.buffered|).1, |buf|, f.xfer, f.limit) {
      assert |Stream(h)| == |Stream(g)| + m;
    } else {
      var i := |g.delivered|;
      assert h.delivered[i] == buf[0];
      assert want[i] == Stream(g)[i] == g.buffered[0];
    }
  }

  /** The exact condition for one put, over all bytes that could be in the buffer and in the put. */
  lemma PutExact(f: File, m: nat)
    requires f.error == 0
    ensures KeepsOrder(f.script, |f.buffered|, m, f.xfer, f.limit) <==>
            forall buffered: seq<Byte>, buf: seq<Byte> :: |buffered| == |f.buffered| && |buf| == m ==>
              PutKeeps(f.(buffered := buffered), buf)
  {
    hide Put, KeepsOrder;
    if KeepsOrder(f.script, |f.buffered|, m, f.xfer, f.limit) {
      forall buffered: seq<Byte>, buf: seq<Byte> | |buffered| == |f.buffered| && |buf| == m
        ensures PutKeeps(f.(buffered := buffered), buf)
      {
        PutInOrder(f.(buffered := buffered), buf);
      }
    } else {
      var zeros, ones: seq<Byte> := Zeros(|f.buffered|), seq(m, _ => 1);
      PutBreaks(f.(buffered := zeros), ones);
      BrokenDiffers(Put(f.(buffered := zeros), ones).0, Stream(f.(buffered := zeros)) + ones);
      assert !PutKeeps(f.(buffered := zeros), ones);
    }
  }

  ghost predicate PutKeeps(f: File, buf: seq<Byte>) {
    Stream(Put(f, buf).0) == Stream(f) + buf
  }

  // ----- and over whole runs -----

  /** The bytes of the puts that met no error when they began. */
  function Accepted(f: File, ops: seq<Op>): seq<Byte>
    decreases |ops|
  {
    if ops == [] then []
    else (if ops[0].PutOp? && f.error == 0 then ops[0].buf else []) + Accepted(Do(f, ops[0]), ops[1..])
  }

  ghost predicate StepKeepsOrder(f: File, op: Op) {
    op.PutOp? && f.error == 0 ==> KeepsOrder(f.script, |f.buffered|, |op.buf|, f.xfer, f.limit)
  }

  ghost predicate KeepsOrderAlong(f: File, ops: seq<Op>)
    decreases |ops|
  {
    ops == [] || (StepKeepsOrder(f, ops[0]) && KeepsOrderAlong(Do(f, ops[0]), ops[1..]))
  }

  ghost predicate InOrder(f: File, ops: seq<Op>) {
    Stream(Run(f, ops)) == Stream(f) + Accepted(f, ops)
  }

  lemma DoInOrder(f: File, op: Op)
    requires StepKeepsOrder(f, op)
    ensures Stream(Do(f, op)) == Stream(f) + if op.PutOp? && f.error == 0 then op.buf else []
  {
    hide Put, FlushLoop, KeepsOrder;
    match op
    case PutOp(buf) =>
      if f.error == 0 {
        PutInOrder(f, buf);
      } else {
        PutRefused(f, buf);
      }
    case TickOp => FlushMeets(f.(xfer := 0));
    case RateOp(_) =>
  }

  lemma PutRefused(f: File, buf: seq<Byte>)
    requires f.error != 0
    ensures Put(f, buf) == (f, f.error)
  {
  }

  lemma {:induction false} RunInOrder(f: File, ops: seq<Op>)
    requires KeepsOrderAlong(f, ops)
    ensures InOrder(f, ops)
    decreases |ops|
  {
    hide Do, StepKeepsOrder;
    if ops != [] {
      DoInOrder(f, ops[0]);
      RunInOrder(Do(f, ops[0]), ops[1..]);
    }
  }

  /** The same but for the bytes themselves. */
  ghost predicate SameShape(f: File, g: File) {
    && f.script == g.script && f.freeze == g.freeze && f.xfer == g.xfer && f.limit == g.limit && f.error == g.error
    && |f.delivered| == |g.delivered| && |f.buffered| == |g.buffered|
  }

  ghost predicate SameOp(o: Op, p: Op) {
    match o
    case PutOp(buf) => p.PutOp? && |p.buf| == |buf|
    case _ => p == o
  }

  ghost predicate SameOps(os: seq<Op>, ps: seq<Op>) {
    |os| == |ps| && forall i :: 0 <= i < |os| ==> SameOp(os[i], ps[i])
  }

  lemma {:induction false} FlushShape(f: File, g: File)
    requires SameShape(f, g)
    ensures SameShape(FlushLoop(f), FlushLoop(g))
    decreases |f.buffered|
  {
    if f.buffered != [] {
      var r := Answer(f.script, |f.buffered|);
      if r > 0 {
        FlushShape(f.(script := Later(f.script), delivered := f.delivered + f.buffered[..r], buffered := f.buffered[r..]),
                   g.(script := Later(g.script), delivered := g.delivered + g.buffered[..r], buffered := g.buffered[r..]));
      }
    }
  }

  lemma {:induction false} PutLoopShape(f: File, a: seq<Byte>, g: File, b: seq<Byte>)
    requires SameShape(f, g) && |a| == |b|
    ensures SameShape(PutLoop(f, a).0, PutLoop(g, b).0) && |PutLoop(f, a).1| == |PutLoop(g, b).1|
    ensures PutLoop(f, a).2 == PutLoop(g, b).2
    decreases |a|
  {
    if !f.freeze && a != [] && f.xfer <= f.limit {
      var r := Answer(f.script, |a|);
      if r > 0 {
        PutLoopShape(f.(script := Later(f.script), delivered := f.delivered + a[..r], xfer := f.xfer + r), a[r..],
                     g.(script := Later(g.script), delivered := g.delivered + b[..r], xfer := g.xfer + r), b[r..]);
      }
    }
  }

  lemma DoShape(f: File, o: Op, g: File, p: Op)
    requires SameShape(f, g) && SameOp(o, p)
    ensures SameShape(Do(f, o), Do(g, p)) && (StepKeepsOrder(f, o) <==> StepKeepsOrder(g, p))
  {
    hide FlushLoop, PutLoop, KeepsOrder;
    match o
    case PutOp(buf) =>
      FlushShape(f.(freeze := false), g.(freeze := false));
      PutLoopShape(Flush(f.(freeze := false)), buf, Flush(g.(freeze := false)), p.buf);
    case TickOp => FlushShape(f.(xfer := 0), g.(xfer := 0));
    case RateOp(_) =>
  }

  lemma {:induction false} AlongShape(f: File, os: seq<Op>, g: File, ps: seq<Op>)
    requires SameShape(f, g) && SameOps(os, ps)
    ensures KeepsOrderAlong(f, os) <==> KeepsOrderAlong(g, ps)
    decreases |os|
  {
    hide Do, StepKeepsOrder, SameShape;
    if os != [] {
      DoShape(f, os[0], g, ps[0]);
      AlongShape(Do(f, os[0]), os[1..], Do(g, ps[0]), ps[1..]);
    }
  }

  /** Nothing that happens later repairs the stream. */
  lemma BrokenStays(f: File, op: Op, want: seq<Byte>)
    requires Broken(f, want)
    ensures Broken(Do(f, op), want + if op.PutOp? && f.error == 0 then op.buf else [])
  {
    var more := if op.PutOp? && f.error == 0 then op.buf else [];
    DoGrows(f, op);
    if i :| 0 <= i < |f.delivered| && i < |want| && f.delivered[i] != want[i] {
      assert Do(f, op).delivered[i] == f.delivered[i] && (want + more)[i] == want[i];
    }
  }

  lemma DoGrows(f: File, op: Op)
    ensures f.delivered <= Do(f, op).delivered
    ensures |Stream(Do(f, op))| <= |Stream(f)| + if op.PutOp? && f.error == 0 then |op.buf| else 0
    ensures forall x :: x in Do(f, op).buffered ==> x in f.buffered || (op.PutOp? && x in op.buf)
  {
    hide FlushLoop, Put;
    match op
    case PutOp(buf) =>
      if f.error == 0 {
        var m := PutComesTo(f, buf);
      } else {
        PutRefused(f, buf);
      }
    case TickOp => FlushMeets(f.(xfer := 0));
    case RateOp(_) =>
  }

  lemma {:induction false} BrokenToTheEnd(f: File, ops: seq<Op>, want: seq<Byte>)
    requires Broken(f, want)
    ensures Broken(Run(f, ops), want + Accepted(f, ops))
    decreases |ops|
  {
    hide Do, Broken;
    if ops == [] {
      assert want + [] == want;
    } else {
      var more := if ops[0].PutOp? && f.error == 0 then ops[0].buf else [];
      BrokenStays(f, ops[0], want);
      BrokenToTheEnd(Do(f, ops[0]), ops[1..], want + more);
      assert want + more + Accepted(Do(f, ops[0]), ops[1..]) == want + Accepted(f, ops);
    }
  }

  function Zeros(n: nat): seq<Byte> { seq(n, _ => 0) }

  /** Bytes that show it: zeroes up to the first put that does harm, and ones in that put. */
  lemma {:induction false} Telling(g: File, ops: seq<Op>) returns (os: seq<Op>)
    requires !KeepsOrderAlong(g, ops) && forall x :: x in g.buffered ==> x == 0
    ensures SameOps(ops, os) && Broken(Run(g, os), Stream(g) + Accepted(g, os))
    decreases |ops|
  {
    hide Do, Broken, KeepsOrder, SameShape;
    if !StepKeepsOrder(g, ops[0]) {
      var ones := PutOp(seq(|ops[0].buf|, _ => 1));
      os := [ones] + ops[1..];
      BreaksNow(g, ones);
      BrokenToTheEnd(Do(g, ones), ops[1..], Stream(g) + ones.buf);
      assert os[1..] == ops[1..];
      assert Stream(g) + ones.buf + Accepted(Do(g, ones), ops[1..]) == Stream(g) + Accepted(g, os);
    } else {
      var op := if ops[0].PutOp? then PutOp(Zeros(|ops[0].buf|)) else ops[0];
      var more := if op.PutOp? && g.error == 0 then op.buf else [];
      SameAsSelf(g);
      DoShape(g, ops[0], g, op);
      DoGrows(g, op);
      AlongSame(g, ops[0], op, ops[1..]);
      var rest := Telling(Do(g, op), ops[1..]);
      os := [op] + rest;
      assert os[1..] == rest;
      DoInOrder(g, op);
      assert Stream(g) + more + Accepted(Do(g, op), rest) == Stream(g) + Accepted(g, os);
    }
  }

  lemma SameAsSelf(f: File)
    ensures SameShape(f, f)
  {
  }

  lemma AlongSame(g: File, o: Op, p: Op, ops: seq<Op>)
    requires SameOp(o, p)
    ensures KeepsOrderAlong(Do(g, o), ops) <==> KeepsOrderAlong(Do(g, p), ops)
  {
    hide Do;
    SameAsSelf(g);
    DoShape(g, o, g, p);
    AlongShape(Do(g, o), ops, Do(g, p), ops);
  }

  lemma BreaksNow(g: File, op: Op)
    requires op.PutOp? && !StepKeepsOrder(g, op) && (forall x :: x in g.buffered ==> x == 0)
    requires forall i :: 0 <= i < |op.buf| ==> op.buf[i] == 1
    ensures Broken(Do(g, op), Stream(g) + op.buf) && g.error == 0
  {
    hide Put, Broken, KeepsOrder;
    PutBreaks(g, op.buf);
  }

  /** The exact condition: whatever the bytes, delivered then buffered is all that was accepted, in order, if and
      only if the answers do no harm to any put of the run. */
  lemma RunExact(f: File, ops: seq<Op>)
    ensures KeepsOrderAlong(f, ops) <==>
            forall g: File, os: seq<Op> :: SameShape(f, g) && SameOps(ops, os) ==> InOrder(g, os)
  {
    hide KeepsOrderAlong, SameOps, InOrder;
    if KeepsOrderAlong(f, ops) {
      forall g: File, os: seq<Op> | SameShape(f, g) && SameOps(ops, os) ensures InOrder(g, os) {
        AlongShape(f, ops, g, os);
        RunInOrder(g, os);
      }
    } else {
      var g := f.(buffered := Zeros(|f.buffered|));
      SameOpsSelf(ops);
      AlongShape(f, ops, g, ops);
      var os := Telling(g, ops);
      NotInOrder(g, os);
    }
  }

  lemma SameOpsSelf(ops: seq<Op>)
    ensures SameOps(ops, ops)
  {
  }

  lemma NotInOrder(g: File, os: seq<Op>)
    requires Broken(Run(g, os), Stream(g) + Accepted(g, os))
    ensures !InOrder(g, os)
  {
    BrokenDiffers(Run(g, os), Stream(g) + Accepted(g, os));
  }

  // ----- instances -----

  /** A 0 from the backend is recorded as no error; the bytes put next then overtake those in the buffer. */
  lemma ZeroReorders(a: Byte, b: Byte)
    ensures var f := Put(File([0, 1], [], [a], false, 0, 0, 0), [b]).0;
            f.error == 0 && f.delivered == [b] && f.buffered == [a]
  {
    var f := File([0, 1], [], [a], false, 0, 0, 0);
    var g := f.(script := [1]);
    assert Flush(f) == g;
    var h := g.(script := [], delivered := [b], xfer := 1);
    assert Later(g.script) == [] && [b][..1] == [b] && [b][1..] == [];
    assert [] + [b] == [b] && PutLoop(h, []) == (h, [], true);
    assert PutLoop(g, [b]) == PutLoop(h, []);
    assert h.buffered + [] == [a];
  }

  /** After a flush that failed in the middle of a put, the put goes on and its bytes overtake too; but then
      the file has its error. */
  lemma FailedFlushReorders(a: Byte, b: Byte, e: int)
    requires e < 0 && e != -EAGAIN
    ensures var f := Put(File([e, 1], [], [a], false, 0, 0, 0), [b]).0;
            f.error == e && f.delivered == [b] && f.buffered == [a]
  {
    var f := File([e, 1], [], [a], false, 0, 0, 0);
    var g := f.(script := [1], error := e);
    assert Flush(f) == g;
    var h := g.(script := [], delivered := [b], xfer := 1);
    assert Later(g.script) == [] && [b][..1] == [b] && [b][1..] == [];
    assert [] + [b] == [b] && PutLoop(h, []) == (h, [], true);
    assert PutLoop(g, [b]) == PutLoop(h, []);
    assert h.buffered + [] == [a];
  }

  /** A 0 in the direct loop is recorded as no error either, and the bytes of the put are gone. */
  lemma ZeroLoses(b: Byte)
    ensures Put(File([0], [], [], false, 0, 0, 0), [b]) == (File([], [], [], false, 0, 0, 0), -EINVAL)
  {
    var f := File([0], [], [], false, 0, 0, 0);
    assert Flush(f) == f;
    assert Later(f.script) == [];
    PutRound(f, [b]);
  }

  /** A 0 does no harm when it comes in a flush that no direct write follows. */
  lemma ZeroCanDoNoHarm(n: nat, limit: nat)
    requires n > 0
    ensures KeepsOrder([0], n, 0, 0, limit)
  {
  }

  // ----- the file itself -----

  /** One round of the loop of `buffered_flush`, and of the loop of `buffered_put_buffer`. */
  lemma FlushRound(f: File)
    ensures f.buffered == [] ==> FlushLoop(f) == f
    ensures f.buffered != [] ==>
              var r := Answer(f.script, |f.buffered|);
              var g := f.(script := Later(f.script));
              && (r == -EAGAIN ==> FlushLoop(f) == g.(freeze := true))
              && (r <= 0 && r != -EAGAIN ==> FlushLoop(f) == g.(error := r))
              && (r > 0 ==> FlushLoop(f) == FlushLoop(g.(delivered := f.delivered + f.buffered[..r], buffered := f.buffered[r..])))
  {
  }

  lemma PutRound(f: File, buf: seq<Byte>)
    ensures f.freeze || buf == [] || f.xfer > f.limit ==> PutLoop(f, buf) == (f, buf, true)
    ensures !f.freeze && buf != [] && f.xfer <= f.limit ==>
              var r := Answer(f.script, |buf|);
              var g := f.(script := Later(f.script));
              && (r == -EAGAIN ==> PutLoop(f, buf) == (g.(freeze := true), buf, true))
              && (r <= 0 && r != -EAGAIN ==> PutLoop(f, buf) == (g.(error := r), [], false))
              && (r > 0 ==> PutLoop(f, buf) == PutLoop(g.(delivered := f.delivered + buf[..r], xfer := f.xfer + r), buf[r..]))
  {
  }

  class QemuFileBuffered {
    var script: seq<int>        // the backend
    var delivered: seq<Byte>
    var buffer: array<Byte>     // its length is buffer_capacity
    var bufferSize: nat
    var freezeOutput: bool
    var bytesXfer: nat
    var xferLimit: nat
    var error: int

    ghost predicate Valid()
      reads this
    {
      bufferSize <= buffer.Length
    }

    /** The file with the first `offset` bytes of its buffer gone. */
    ghost function From(offset: nat): File
      reads this, buffer
      requires offset <= bufferSize <= buffer.Length
    {
      File(script, delivered, buffer[offset..bufferSize], freezeOutput, bytesXfer, xferLimit, error)
    }

    ghost function Abs(): File
      reads this, buffer
      requires Valid()
    {
      From(0)
    }

    constructor (bytesPerSec: nat, script: seq<int>)
      ensures Valid() && fresh(buffer) && Abs() == File(script, [], [], false, 0, bytesPerSec / 10, 0)
    {
      this.script, delivered, bufferSize := script, [], 0;
      buffer := new Byte[0];
      freezeOutput, bytesXfer, xferLimit, error := false, 0, bytesPerSec / 10, 0;
    }

    /** The backend's `put_buffer`. */
    method Offer(buf: seq<Byte>) returns (ret: int)
      modifies this`script, this`delivered
      ensures ret == Answer(old(script), |buf|) && script == Later(old(script))
      ensures ret <= |buf| && delivered == old(delivered) + if ret > 0 then buf[..ret] else []
    {
      ret := Answer(script, |buf|);
      script := Later(script);
      if ret > 0 {
        delivered := delivered + buf[..ret];
      }
    }

    /** `buffered_append` */
    method Append(buf: seq<Byte>)
      requires Valid()
      modifies this`buffer, this`bufferSize, buffer
      ensures Valid() && (buffer == old(buffer) || fresh(buffer))
      ensures Abs() == old(Abs()).(buffered := old(Abs()).buffered + buf)
    {
      ghost var was := buffer[..bufferSize];
      if |buf| > buffer.Length - bufferSize {
        var tmp := new Byte[buffer.Length + |buf| + 1024];
        forall i | 0 <= i < bufferSize {
          tmp[i] := buffer[i];
        }
        buffer := tmp;
      }
      assert buffer[..bufferSize] == was;
      forall i | 0 <= i < |buf| {
        buffer[bufferSize + i] := buf[i];
      }
      bufferSize := bufferSize + |buf|;
      assert buffer[0..bufferSize] == was + buf;
      assert was == old(buffer[0..bufferSize]);
    }

    /** The loop of `buffered_flush`: `offset` bytes have gone. */
    method FlushWrites() returns (offset: nat)
      requires Valid()
      modifies this`script, this`delivered, this`freezeOutput, this`error
      ensures Valid() && offset <= bufferSize && From(offset) == FlushLoop(old(Abs()))
    {
      hide FlushLoop, Answer, Later;
      offset := 0;
      var more := true;
      while more && offset < bufferSize
        invariant offset <= bufferSize
        invariant FlushLoop(old(Abs())) == if more then FlushLoop(From(offset)) else From(offset)
        decreases more, bufferSize - offset
      {
        FlushRound(From(offset));
        var ret := Offer(buffer[offset..bufferSize]);
        if ret == -EAGAIN {
          freezeOutput := true;
          more := false;
        } else if ret <= 0 {
          error := ret;
          more := false;
        } else {
          assert buffer[offset..bufferSize][ret..] == buffer[offset + ret..bufferSize];
          offset := offset + ret;
        }
      }
      FlushRound(From(offset));
    }

    /** `buffered_flush` */
    method FlushBuffer()
      requires Valid()
      modifies this`script, this`delivered, this`freezeOutput, this`error, this`bufferSize, buffer
      ensures Valid() && Abs() == Flush(old(Abs()))
    {
      hide FlushLoop;
      if error != 0 {
        return;
      }
      var offset := FlushWrites();
      ghost var rest := buffer[offset..bufferSize];
      forall i | 0 <= i < bufferSize - offset {
        buffer[i] := buffer[offset + i];
      }
      bufferSize := bufferSize - offset;
      assert buffer[0..bufferSize] == rest;
    }

    /** The loop of `buffered_put_buffer`: `offset` bytes have gone, unless an error came. */
    method PutDirect(buf: seq<Byte>) returns (offset: nat, ok: bool)
      requires Valid()
      modifies this`script, this`delivered, this`freezeOutput, this`error, this`bytesXfer
      ensures offset <= |buf| && (Abs(), if ok then buf[offset..] else [], ok) == PutLoop(old(Abs()), buf)
    {
      hide PutLoop, Answer, Later;
      offset, ok := 0, true;
      var more := true;
      assert buf[0..] == buf;
      while more && !freezeOutput && offset < |buf|
        invariant offset <= |buf| && (more ==> ok)
        invariant PutLoop(old(Abs()), buf) == if more then PutLoop(Abs(), buf[offset..])
                                              else (Abs(), if ok then buf[offset..] else [], ok)
        decreases more, |buf| - offset
      {
        ghost var f := Abs();
        PutRound(f, buf[offset..]);
        if bytesXfer > xferLimit {
          more := false;
        } else {
          var ret := Offer(buf[offset..]);
          if ret == -EAGAIN {
            freezeOutput := true;
            more := false;
            assert Abs() == f.(script := Later(f.script), freeze := true);
          } else if ret <= 0 {
            error := ret;
            ok, more := false, false;
            assert Abs() == f.(script := Later(f.script), error := ret);
          } else {
            assert buf[offset..][ret..] == buf[offset + ret..];
            bytesXfer := bytesXfer + ret;
            assert Abs() == f.(script := Later(f.script), delivered := f.delivered + buf[offset..][..ret], xfer := f.xfer + ret);
            offset := offset + ret;
          }
        }
      }
      PutRound(Abs(), buf[offset..]);
    }

    /** `buffered_put_buffer` */
    method PutBuffer(buf: seq<Byte>) returns (ret: int)
      requires Valid()
      modifies this, buffer
      ensures Valid() && (buffer == old(buffer) || fresh(buffer))
      ensures (Abs(), ret) == Put(old(Abs()), buf)
    {
      hide FlushLoop, PutLoop;
      if error != 0 {
        return error;
      }
      freezeOutput := false;
      FlushBuffer();
      var offset, ok := PutDirect(buf);
      if ok {
        Append(buf[offset..]);
        ret := |buf|;
      } else {
        ret := -EINVAL;
      }
    }

    /** `buffered_rate_tick`, up to the notification of the client; a file with an error is closed */
    method RateTick()
      requires Valid()
      modifies this, buffer
      ensures Valid() && buffer == old(buffer) && Abs() == Do(old(Abs()), TickOp)
    {
      if error != 0 {
        Close();
        return;
      }
      if freezeOutput {
        return;
      }
      bytesXfer := 0;
      FlushBuffer();
    }

    /** The loop of `buffered_close` */
    method Close()
      requires Valid()
      modifies this, buffer
      ensures Valid() && buffer == old(buffer) && Abs() == CloseLoop(old(Abs()))
    {
      while error == 0 && bufferSize != 0
        invariant Valid() && buffer == old(buffer) && CloseLoop(Abs()) == CloseLoop(old(Abs()))
        decreases |script|, bufferSize
      {
        assert |Abs().buffered| == bufferSize;
        FlushShrinks(Abs());
        FlushBuffer();
        assert |Abs().buffered| == bufferSize;
      }
      assert |Abs().buffered| == bufferSize;
    }
  }
}
