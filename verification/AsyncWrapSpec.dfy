/** `AsyncWrap` (util/async_wrap.rs) as a state machine.  The wrapped object is moved into the future of the
    operation in progress and moved back when that operation ends; it carries here what it has given
    to readers and taken from writers over its whole life. */
module AsyncWrapSpec {
  import opened Basics

  type Byte = bv8
  const BUFFER_SIZE: nat := 4096

  datatype Inner = Inner(given: seq<Byte>, taken: seq<Byte>)

  /** A buffer of which the bytes from `advanced` to `n` are still to be delivered. */
  datatype Leftover = Leftover(buffer: seq<Byte>, advanced: nat, n: nat)

  /** A write in progress: what is left of its buffer and how much was written. */
  datatype Writing = Writing(inner: Inner, rest: seq<Byte>, total: nat)

  datatype Wrap = Wrap(inner: Option<Inner>, readBuf: Option<Leftover>, reading: Option<Inner>,
                       writing: Option<Writing>, flushing: Option<Inner>)

  // What the wrapped object does when it is polled.  `Took(n)`: it takes n bytes, or all if there are fewer.
  datatype InnerRead = NotYet | Got(buffer: seq<Byte>, n: nat) | ReadBroke(e: int)
  datatype InnerWrite = Took(n: nat) | WriteBroke(e: int)
  datatype InnerFlush = Later | Flushed | FlushBroke(e: int)

  // What the wrapper returns.
  datatype Poll<T> = Pending | Ready(value: T) | Error(e: int) | Busy

  /** The wrapped object fills at most the buffer it is given. */
  predicate Legal(r: InnerRead) {
    r.Got? ==> |r.buffer| == BUFFER_SIZE && r.n <= BUFFER_SIZE
  }

  /** The leftovers are never an empty range. */
  predicate BufOk(b: Option<Leftover>) {
    b.Some? ==> b.value.advanced < b.value.n <= |b.value.buffer|
  }

  // ---------------------------------------------------------------------------------------
  // The three polls

  /** Deliver up to `room` bytes of a buffer and keep the rest of it. */
  function Deliver(b: Leftover, room: nat): (seq<Byte>, Option<Leftover>)
    requires b.advanced <= b.n <= |b.buffer|
  {
    var m := Min(b.n - b.advanced, room);
    (b.buffer[b.advanced..b.advanced + m], if b.advanced + m < b.n then Some(b.(advanced := b.advanced + m)) else None)
  }

  function PollRead(w: Wrap, room: nat, r: InnerRead): (Wrap, Poll<seq<Byte>>)
    requires BufOk(w.readBuf) && Legal(r)
  {
    if room == 0 then (w, Ready([]))
    else if w.reading.None? && w.readBuf.Some? then
      var (bytes, rest) := Deliver(w.readBuf.value, room);
      (w.(readBuf := rest), Ready(bytes))
    else if w.reading.None? && w.inner.None? then (w, Busy)
    else
      var inner := if w.reading.Some? then w.reading.value else w.inner.value;
      match r
      case NotYet => (if w.reading.Some? then w else w.(inner := None, reading := Some(inner)), Pending)
      case ReadBroke(e) => (w.(inner := Some(inner), reading := None), Error(e))
      case Got(buffer, n) =>
        var (bytes, rest) := Deliver(Leftover(buffer, 0, n), room);
        (w.(inner := Some(inner.(given := inner.given + buffer[..n])), reading := None,
            readBuf := if rest.Some? then rest else w.readBuf),
         Ready(bytes))
  }

  datatype Driven = Unfinished(w: Writing) | Finished(inner: Inner, total: nat) | Broken(inner: Inner, e: int)

  /** The write loop, driven by what the wrapped object answers until it has no answer yet. */
  function Drive(w: Writing, answers: seq<InnerWrite>): Driven
    decreases |answers|
  {
    if w.rest == [] then Finished(w.inner, w.total)
    else if answers == [] then Unfinished(w)
    else
      match answers[0]
      case WriteBroke(e) => Broken(w.inner, e)
      case Took(k) =>
        var n := Min(k, |w.rest|);
        Drive(Writing(w.inner.(taken := w.inner.taken + w.rest[..n]), w.rest[n..], w.total + n), answers[1..])
  }

  function PollWrite(w: Wrap, buf: seq<Byte>, answers: seq<InnerWrite>): (Wrap, Poll<nat>) {
    if buf == [] then (w, Ready(0))
    else if w.writing.None? && w.inner.None? then (w, Busy)
    else
      var task := if w.writing.Some? then w.writing.value else Writing(w.inner.value, buf, 0);
      match Drive(task, answers)
      case Unfinished(t) => (w.(inner := if w.writing.Some? then w.inner else None, writing := Some(t)), Pending)
      case Finished(inner, total) => (w.(inner := Some(inner), writing := None), Ready(total))
      case Broken(inner, e) => (w.(inner := Some(inner), writing := None), Error(e))
  }

  function PollFlush(w: Wrap, f: InnerFlush): (Wrap, Poll<()>) {
    if w.flushing.None? && w.inner.None? then (w, Busy)
    else
      var inner := if w.flushing.Some? then w.flushing.value else w.inner.value;
      match f
      case Later => (if w.flushing.Some? then w else w.(inner := None, flushing := Some(inner)), Pending)
      case Flushed => (w.(inner := Some(inner), flushing := None), Ready(()))
      case FlushBroke(e) => (w.(inner := Some(inner), flushing := None), Error(e))
  }

  // ---------------------------------------------------------------------------------------
  // Histories

  /** The wrapper with its history: all bytes delivered to readers, what the object had taken when the last
      write ended, and the buffer the current write began with. */
  datatype System = System(wrap: Wrap, delivered: seq<Byte>, settled: seq<Byte>, whole: seq<Byte>)

  datatype Step = DoRead(room: nat, r: InnerRead) | DoWrite(buf: seq<Byte>, answers: seq<InnerWrite>) | DoFlush(f: InnerFlush)

  predicate Possible(s: System, step: Step) {
    step.DoRead? ==> BufOk(s.wrap.readBuf) && Legal(step.r)
  }

  /** The buffer of the write that a poll with `buf` starts or continues. */
  function Whole(s: System, buf: seq<Byte>): seq<Byte> {
    if s.wrap.writing.Some? || buf == [] then s.whole else buf
  }

  function Do(s: System, step: Step): System
    requires Possible(s, step)
  {
    match step
    case DoRead(room, r) =>
      var (w, p) := PollRead(s.wrap, room, r);
      s.(wrap := w, delivered := if p.Ready? then s.delivered + p.value else s.delivered)
    case DoWrite(buf, answers) =>
      var (w, p) := PollWrite(s.wrap, buf, answers);
      s.(wrap := w, whole := Whole(s, buf),
         settled := if w.writing.None? && w.inner.Some? then w.inner.value.taken else s.settled)
    case DoFlush(f) => s.(wrap := PollFlush(s.wrap, f).0)
  }

  function Occupied<T>(o: Option<T>): nat { if o.Some? then 1 else 0 }

  /** Where the wrapped object is: exactly one place. */
  predicate OneHolder(w: Wrap) {
    Occupied(w.inner) + Occupied(w.reading) + Occupied(w.writing) + Occupied(w.flushing) == 1
  }

  function Held(w: Wrap): Inner
    requires OneHolder(w)
  {
    if w.inner.Some? then w.inner.value
    else if w.reading.Some? then w.reading.value
    else if w.writing.Some? then w.writing.value.inner
    else w.flushing.value
  }

  function Remaining(b: Option<Leftover>): seq<Byte>
    requires BufOk(b)
  {
    if b.Some? then b.value.buffer[b.value.advanced..b.value.n] else []
  }

  /** A write in progress has put a prefix of its buffer into the object and has the rest to go. */
  predicate Midway(t: Writing, settled: seq<Byte>, whole: seq<Byte>) {
    t.total <= |whole| && t.inner.taken == settled + whole[..t.total] && t.rest == whole[t.total..]
  }

  ghost predicate Inv(s: System) {
    && OneHolder(s.wrap) && BufOk(s.wrap.readBuf)
    && (s.wrap.reading.Some? ==> s.wrap.readBuf.None?)
    && s.delivered + Remaining(s.wrap.readBuf) == Held(s.wrap).given
    && (match s.wrap.writing
        case None => Held(s.wrap).taken == s.settled
        case Some(t) => Midway(t, s.settled, s.whole) && t.rest != [])
  }

  // ---------------------------------------------------------------------------------------
  // Every step keeps it

  /** Delivery splits the undelivered bytes in two, and is empty only if there were none or no room. */
  lemma DeliverSplits(b: Leftover, room: nat)
    requires b.advanced <= b.n <= |b.buffer|
    ensures var (bytes, rest) := Deliver(b, room);
      && BufOk(rest) && bytes + Remaining(rest) == b.buffer[b.advanced..b.n]
      && |bytes| <= room && (bytes == [] <==> room == 0 || b.advanced == b.n)
  {
  }

  lemma LeftoverStep(s: System, room: nat, r: InnerRead)
    requires Inv(s) && Legal(r) && room > 0 && s.wrap.reading.None? && s.wrap.readBuf.Some?
    ensures Inv(Do(s, DoRead(room, r)))
  {
    hide Midway; hide Deliver;
    var b := s.wrap.readBuf.value;
    DeliverSplits(b, room);
    Regroup(s.delivered, Deliver(b, room).0, Remaining(Deliver(b, room).1));
  }

  lemma GotStep(s: System, room: nat, r: InnerRead)
    requires Inv(s) && Legal(r) && r.Got? && room > 0
    requires s.wrap.reading.Some? || (s.wrap.inner.Some? && s.wrap.readBuf.None?)
    ensures Inv(Do(s, DoRead(room, r)))
  {
    hide Midway; hide Deliver;
    var b := Leftover(r.buffer, 0, r.n);
    DeliverSplits(b, room);
    Regroup(s.delivered, Deliver(b, room).0, Remaining(Deliver(b, room).1));
    assert r.buffer[0..r.n] == r.buffer[..r.n];
  }

  lemma ReadStep(s: System, room: nat, r: InnerRead)
    requires Inv(s) && Legal(r)
    ensures Inv(Do(s, DoRead(room, r)))
  {
    hide Midway; hide Deliver;
    if room > 0 && s.wrap.reading.None? && s.wrap.readBuf.Some? {
      LeftoverStep(s, room, r);
    } else if room > 0 && r.Got? && (s.wrap.reading.Some? || s.wrap.inner.Some?) {
      GotStep(s, room, r);
    }
  }

  lemma Regroup(a: seq<Byte>, b: seq<Byte>, c: seq<Byte>)
    ensures a + b + c == a + (b + c)
  {
  }

  /** Whatever the object answers, a driven write ends as it should: unfinished with its account in order,
      finished with the whole buffer in the object, or broken after a strict prefix of it. */
  lemma {:induction false} DriveKeeps(t: Writing, answers: seq<InnerWrite>, settled: seq<Byte>, whole: seq<Byte>)
    requires Midway(t, settled, whole)
    ensures match Drive(t, answers)
      case Unfinished(t') => Midway(t', settled, whole) && t'.rest != [] && t'.inner.given == t.inner.given
      case Finished(inner, total) => total == |whole| && inner == Inner(t.inner.given, settled + whole)
      case Broken(inner, _) => inner.given == t.inner.given && exists n :: 0 <= n < |whole| && inner.taken == settled + whole[..n]
    decreases |answers|
  {
    if t.rest == [] {
      assert whole[..t.total] == whole;
    } else if answers != [] && answers[0].Took? {
      var n := Min(answers[0].n, |t.rest|);
      assert whole[..t.total] + whole[t.total..][..n] == whole[..t.total + n];
      Regroup(settled, whole[..t.total], t.rest[..n]);
      DriveKeeps(Writing(t.inner.(taken := t.inner.taken + t.rest[..n]), t.rest[n..], t.total + n), answers[1..], settled, whole);
    }
  }

  function Task(s: System, buf: seq<Byte>): Writing
    requires s.wrap.writing.Some? || s.wrap.inner.Some?
  {
    if s.wrap.writing.Some? then s.wrap.writing.value else Writing(s.wrap.inner.value, buf, 0)
  }

  lemma TaskMidway(s: System, buf: seq<Byte>)
    requires Inv(s) && buf != [] && (s.wrap.writing.Some? || s.wrap.inner.Some?)
    ensures Midway(Task(s, buf), s.settled, Whole(s, buf)) && Task(s, buf).inner == Held(s.wrap)
  {
  }

  lemma WriteStep(s: System, buf: seq<Byte>, answers: seq<InnerWrite>)
    requires Inv(s)
    ensures Inv(Do(s, DoWrite(buf, answers)))
  {
    if buf != [] && (s.wrap.writing.Some? || s.wrap.inner.Some?) {
      TaskMidway(s, buf);
      hide Midway; hide Drive;
      DriveKeeps(Task(s, buf), answers, s.settled, Whole(s, buf));
    }
  }

  lemma FlushStep(s: System, f: InnerFlush)
    requires Inv(s)
    ensures Inv(Do(s, DoFlush(f)))
  {
    hide Midway;
  }

  const NEW := System(Wrap(Some(Inner([], [])), None, None, None, None), [], [], [])

  /** Any interleaving of the three polls, with any buffer sizes and any answers of the object. */
  ghost predicate IsRun(run: seq<System>, steps: seq<Step>) {
    && |run| == |steps| + 1 && run[0] == NEW
    && forall k :: 0 <= k < |steps| ==> Possible(run[k], steps[k]) && run[k + 1] == Do(run[k], steps[k])
  }

  lemma {:induction false} RunInv(run: seq<System>, steps: seq<Step>, k: nat)
    requires IsRun(run, steps) && k < |run|
    ensures Inv(run[k])
  {
    if k > 0 {
      RunInv(run, steps, k - 1);
      hide Inv; hide Do;
      match steps[k - 1]
      case DoRead(room, r) => ReadStep(run[k - 1], room, r);
      case DoWrite(buf, answers) => WriteStep(run[k - 1], buf, answers);
      case DoFlush(f) => FlushStep(run[k - 1], f);
    }
  }

  // ---------------------------------------------------------------------------------------
  // What a user of the wrapper sees

  /** The object is in exactly one place, and readers got its bytes in order, except the leftovers. */
  lemma ReadsRefineStream(run: seq<System>, steps: seq<Step>, k: nat)
    requires IsRun(run, steps) && k < |run|
    ensures var s := run[k];
      OneHolder(s.wrap) && BufOk(s.wrap.readBuf) && s.delivered + Remaining(s.wrap.readBuf) == Held(s.wrap).given
  {
    RunInv(run, steps, k);
  }

  /** A read that returns nothing had no room, or the object's own read returned 0; and a read is turned
      away exactly when it needs the object while a write or a flush has it. */
  lemma EmptyReadIsEof(run: seq<System>, steps: seq<Step>, k: nat, room: nat, r: InnerRead)
    requires IsRun(run, steps) && k < |run| && Legal(r)
    ensures BufOk(run[k].wrap.readBuf)
    ensures var s := run[k].wrap; var p := PollRead(s, room, r).1;
      && (p == Ready([]) <==> room == 0 || (s.readBuf.None? && s.writing.None? && s.flushing.None? && r.Got? && r.n == 0))
      && (p == Busy <==> room > 0 && s.readBuf.None? && (s.writing.Some? || s.flushing.Some?))
      && (p.Ready? ==> |p.value| <= room)
  {
    RunInv(run, steps, k);
    var s := run[k].wrap;
    if room > 0 {
      if s.reading.None? && s.readBuf.Some? {
        DeliverSplits(s.readBuf.value, room);
      } else if r.Got? {
        DeliverSplits(Leftover(r.buffer, 0, r.n), room);
      }
    }
  }

  /** A read that reaches the object returns what the object answers: pending, and then it is in progress, its
      error, or data. */
  lemma ReadAnswers(run: seq<System>, steps: seq<Step>, k: nat, room: nat, r: InnerRead)
    requires IsRun(run, steps) && k < |run| && Legal(r) && room > 0
    requires run[k].wrap.readBuf.None? && run[k].wrap.writing.None? && run[k].wrap.flushing.None?
    ensures var (w, p) := PollRead(run[k].wrap, room, r);
      && (p.Pending? <==> r.NotYet?) && (p.Error? <==> r.ReadBroke?) && (p.Ready? <==> r.Got?)
      && (p.Error? ==> p.e == r.e) && (p.Ready? ==> p.value == r.buffer[..Min(r.n, room)])
      && (p.Pending? <==> w.reading.Some?)
  {
    RunInv(run, steps, k);
  }

  /** A read served from the leftovers is ready, whatever the object does. */
  lemma LeftoversAreReady(run: seq<System>, steps: seq<Step>, k: nat, room: nat, r: InnerRead)
    requires IsRun(run, steps) && k < |run| && Legal(r) && run[k].wrap.readBuf.Some?
    ensures BufOk(run[k].wrap.readBuf)
    ensures var (w, p) := PollRead(run[k].wrap, room, r); var rest := Remaining(run[k].wrap.readBuf);
      p == Ready(rest[..Min(|rest|, room)]) && w.reading == run[k].wrap.reading && w.inner == run[k].wrap.inner
  {
    RunInv(run, steps, k);
    var b := run[k].wrap.readBuf.value;
    var m := Min(b.n - b.advanced, room);
    assert b.buffer[b.advanced..b.n][..m] == b.buffer[b.advanced..b.advanced + m];
  }

  /** How much a sequence of answers takes, until one fails. */
  function TookBy(answers: seq<InnerWrite>): nat {
    if answers == [] || answers[0].WriteBroke? then 0 else answers[0].n + TookBy(answers[1..])
  }

  predicate AllTook(answers: seq<InnerWrite>) {
    forall i :: 0 <= i < |answers| ==> answers[i].Took?
  }

  /** How a driven write ends is the object's doing: it is unfinished if the object took less than the rest in
      all its answers, finished if it took all of it before failing, and broken by its first failure otherwise. */
  lemma {:induction false} DriveExact(t: Writing, answers: seq<InnerWrite>)
    ensures var d := Drive(t, answers);
      && (d.Unfinished? <==> AllTook(answers) && TookBy(answers) < |t.rest|)
      && (d.Finished? <==> TookBy(answers) >= |t.rest|)
      && (d.Unfinished? ==> d.w.total == t.total + TookBy(answers) && d.w.rest == t.rest[TookBy(answers)..])
      && (d.Broken? ==> exists i :: 0 <= i < |answers| && AllTook(answers[..i]) && answers[i] == WriteBroke(d.e))
    decreases |answers|
  {
    if t.rest != [] && answers != [] {
      match answers[0]
      case WriteBroke(e) =>
        assert AllTook(answers[..0]) && answers[0] == WriteBroke(e);
      case Took(k) =>
        var n := Min(k, |t.rest|);
        var t', later := Writing(t.inner.(taken := t.inner.taken + t.rest[..n]), t.rest[n..], t.total + n), answers[1..];
        DriveExact(t', later);
        AllTookCons(answers);
        if Drive(t', later).Broken? {
          var i :| 0 <= i < |later| && AllTook(later[..i]) && later[i] == WriteBroke(Drive(t', later).e);
          assert AllTook(answers[..i + 1]) by {
            assert answers[..i + 1] == [answers[0]] + later[..i];
          }
        }
    }
  }

  lemma AllTookCons(answers: seq<InnerWrite>)
    requires answers != [] && answers[0].Took?
    ensures AllTook(answers) <==> AllTook(answers[1..])
  {
    if AllTook(answers[1..]) {
      forall i | 0 <= i < |answers| ensures answers[i].Took? {
        assert i > 0 ==> answers[i] == answers[1..][i - 1];
      }
    }
  }

  /** A write that reaches the object is pending exactly while it is in progress, which is while the object has
      taken less than its rest, and an error is the object's own. */
  lemma WriteAnswers(run: seq<System>, steps: seq<Step>, k: nat, buf: seq<Byte>, answers: seq<InnerWrite>)
    requires IsRun(run, steps) && k < |run| && buf != [] && run[k].wrap.reading.None? && run[k].wrap.flushing.None?
    ensures run[k].wrap.writing.Some? || run[k].wrap.inner.Some?
    ensures var (w, p) := PollWrite(run[k].wrap, buf, answers); var rest := Task(run[k], buf).rest;
      && (p.Pending? <==> w.writing.Some?)
      && (p.Pending? <==> AllTook(answers) && TookBy(answers) < |rest|)
      && (p.Ready? <==> TookBy(answers) >= |rest|)
      && (p.Error? ==> exists i :: 0 <= i < |answers| && AllTook(answers[..i]) && answers[i] == WriteBroke(p.e))
  {
    RunInv(run, steps, k);
    hide Inv;
    DriveExact(Task(run[k], buf), answers);
    hide Drive; hide AllTook; hide TookBy;
  }

  /** An empty write is done at once and touches nothing, even while another operation is in progress. */
  lemma EmptyWriteIsDone(w: Wrap, answers: seq<InnerWrite>)
    ensures PollWrite(w, [], answers) == (w, Ready(0))
  {
  }

  /** A write that ends well has put the whole buffer it began with into the object, right behind what was
      there, and reports its length; one that fails has put a strict prefix of it there. */
  lemma WritesAreWhole(run: seq<System>, steps: seq<Step>, k: nat, buf: seq<Byte>, answers: seq<InnerWrite>)
    requires IsRun(run, steps) && k < |run| && buf != []
    ensures var s := run[k]; var (w, p) := PollWrite(s.wrap, buf, answers); var whole := Whole(s, buf);
      && (p.Ready? ==> p.value == |whole| && w.inner.Some? && w.inner.value.taken == s.settled + whole)
      && (p.Error? ==> w.inner.Some? && exists n :: 0 <= n < |whole| && w.inner.value.taken == s.settled + whole[..n])
      && (p == Busy <==> s.wrap.reading.Some? || s.wrap.flushing.Some?)
  {
    RunInv(run, steps, k);
    var s := run[k];
    if s.wrap.writing.Some? || s.wrap.inner.Some? {
      TaskMidway(s, buf);
      DriveKeeps(Task(s, buf), answers, s.settled, Whole(s, buf));
      hide Drive; hide Midway;
    }
  }

  /** A flush is turned away exactly when a read or a write has the object; otherwise it returns what the
      object answers, with the object's streams untouched. */
  lemma FlushIsFaithful(run: seq<System>, steps: seq<Step>, k: nat, f: InnerFlush)
    requires IsRun(run, steps) && k < |run|
    ensures OneHolder(run[k].wrap)
    ensures var s := run[k].wrap; var (w, p) := PollFlush(s, f);
      && (p == Busy <==> s.reading.Some? || s.writing.Some?)
      && (p != Busy ==> (p.Pending? <==> f.Later?) && (p.Ready? <==> f.Flushed?) && (p.Error? <==> f.FlushBroke?))
      && (p.Error? ==> p.e == f.e)
      && OneHolder(w) && Held(w) == Held(s) && (p.Pending? <==> w.flushing.Some?)
  {
    RunInv(run, steps, k);
  }

  /** Polled again before it ends, a write goes on with the buffer it began with and does not look at the
      new one. */
  lemma RepollKeepsBuffer(w: Wrap, buf: seq<Byte>, other: seq<Byte>, answers: seq<InnerWrite>)
    requires w.writing.Some? && buf != [] && other != []
    ensures PollWrite(w, buf, answers) == PollWrite(w, other, answers)
  {
  }

  /** A write that ends well reports more bytes than the buffer it was last polled with has if and only if it
      was in progress with a longer one. */
  lemma CountExceedsIff(run: seq<System>, steps: seq<Step>, k: nat, buf: seq<Byte>, answers: seq<InnerWrite>)
    requires IsRun(run, steps) && k < |run| && buf != [] && PollWrite(run[k].wrap, buf, answers).1.Ready?
    ensures PollWrite(run[k].wrap, buf, answers).1.value > |buf| <==> run[k].wrap.writing.Some? && |run[k].whole| > |buf|
  {
    hide PollWrite; hide Do;
    WritesAreWhole(run, steps, k, buf, answers);
  }

  /** A run that gets there: a write of two bytes is pending, is polled with one byte and returns 2. */
  lemma CountExceeds() returns (run: seq<System>, steps: seq<Step>)
    ensures IsRun(run, steps) && |run| == 2
    ensures PollWrite(run[1].wrap, [0], [Took(2)]).1 == Ready(2)
  {
    steps := [DoWrite([0, 0], [])];
    run := [NEW, Do(NEW, steps[0])];
    var task := Writing(Inner([], []), [0, 0], 0);
    assert run[1].wrap == Wrap(None, None, None, Some(task), None);
    var done := Writing(Inner([], [0, 0]), [], 2);
    assert [0, 0][..2] == [0, 0] && [] + [0, 0] == [0, 0];
    assert Drive(task, [Took(2)]) == Drive(done, [Took(2)][1..]);
  }
}
