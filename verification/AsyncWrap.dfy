/** `AsyncWrap` of util/async_wrap.rs.  The answers of the wrapped object are parameters of the polls. */
module AsyncWrapClass {
  import opened Basics
  import opened AsyncWrapSpec

  class AsyncWrap {
    var inner: Option<Inner>
    var readBuf: Option<Leftover>
    var readFut: Option<Inner>
    var writeFut: Option<Writing>
    var flushFut: Option<Inner>

    ghost function View(): Wrap
      reads this
    {
      Wrap(inner, readBuf, readFut, writeFut, flushFut)
    }

    constructor (io: Inner)
      ensures View() == Wrap(Some(io), None, None, None, None)
    {
      inner, readBuf, readFut, writeFut, flushFut := Some(io), None, None, None, None;
    }

    /** `room` is what the caller's buffer has left; `bytes` is put there when the poll is ready. */
    method PollRead(room: nat, r: InnerRead) returns (p: Poll<seq<Byte>>)
      requires BufOk(readBuf) && Legal(r)
      modifies this
      ensures (View(), p) == AsyncWrapSpec.PollRead(old(View()), room, r)
      ensures BufOk(readBuf)
    {
      if room == 0 {
        return Ready([]);
      }
      if readFut.None? {
        var taken := readBuf;
        readBuf := None;
        if taken.Some? {
          var b := taken.value;
          var copyLen := Min(b.n - b.advanced, room);
          if b.advanced + copyLen < b.n {
            readBuf := Some(b.(advanced := b.advanced + copyLen));
          }
          return Ready(b.buffer[b.advanced..b.advanced + copyLen]);
        }
        if inner.None? {
          return Busy;
        }
        readFut, inner := inner, None;
      }
      if r.NotYet? {
        return Pending;
      }
      var io := readFut.value;
      readFut := None;
      if r.ReadBroke? {
        inner := Some(io);
        return Error(r.e);
      }
      inner := Some(io.(given := io.given + r.buffer[..r.n]));
      var copyLen := Min(r.n, room);
      if copyLen < r.n {
        readBuf := Some(Leftover(r.buffer, copyLen, r.n));
      }
      assert r.buffer[..copyLen] == r.buffer[0..copyLen];
      return Ready(r.buffer[..copyLen]);
    }

    method PollWrite(buf: seq<Byte>, answers: seq<InnerWrite>) returns (p: Poll<nat>)
      modifies this
      ensures (View(), p) == AsyncWrapSpec.PollWrite(old(View()), buf, answers)
    {
      if buf == [] {
        return Ready(0);
      }
      if writeFut.None? {
        if inner.None? {
          return Busy;
        }
        writeFut, inner := Some(Writing(inner.value, buf, 0)), None;
      }
      var end := RunWrite(writeFut.value, answers);
      match end {
        case Unfinished(task) =>
          writeFut := Some(task);
          return Pending;
        case Finished(io, total) =>
          writeFut, inner := None, Some(io);
          return Ready(total);
        case Broken(io, e) =>
          writeFut, inner := None, Some(io);
          return Error(e);
      }
    }

    /** The future's write loop, as far as one poll takes it. */
    static method RunWrite(task: Writing, answers: seq<InnerWrite>) returns (end: Driven)
      ensures end == Drive(task, answers)
    {
      var io, rest, total := task.inner, task.rest, task.total;
      var i := 0;
      while rest != []
        invariant 0 <= i <= |answers|
        invariant Drive(Writing(io, rest, total), answers[i..]) == Drive(task, answers)
        decreases |answers| - i
      {
        if i == |answers| {
          return Unfinished(Writing(io, rest, total));
        }
        assert answers[i..][1..] == answers[i + 1..];
        match answers[i] {
          case WriteBroke(e) =>
            return Broken(io, e);
          case Took(k) =>
            var n := Min(k, |rest|);
            io := io.(taken := io.taken + rest[..n]);
            total, rest := total + n, rest[n..];
        }
        i := i + 1;
      }
      return Finished(io, total);
    }

    method PollFlush(f: InnerFlush) returns (p: Poll<()>)
      modifies this
      ensures (View(), p) == AsyncWrapSpec.PollFlush(old(View()), f)
    {
      if flushFut.None? {
        if inner.None? {
          return Busy;
        }
        flushFut, inner := inner, None;
      }
      if f.Later? {
        return Pending;
      }
      inner, flushFut := flushFut, None;
      return if f.Flushed? then Ready(()) else Error(f.e);
    }
  }
}
