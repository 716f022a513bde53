/** The two pumps of io/sendfile.rs that copy a file to a socket: by `splice` through a pipe, and by
    `sendfile`.  The system calls move as many bytes as they like within what they are asked for, or fail. */
module Sendfile {
  import opened Basics
  import opened PumpSpec

  /** `Blocked`: the call waits for a slot that only this pump could free. */
  datatype Outcome = Moved(n: nat) | Failed(errno: int) | Blocked
  datatype Result = Ok(sent: nat) | Err(errno: int) | Stalled

  const INVALID_INPUT: int := -1

  // ---------------------------------------------------------------------------------------
  // The system calls

  /** The file from its current position on, the pipe between the two splices, and what the socket took. */
  class Kernel {
    const file: seq<Byte>
    const capacity: nat
    var offset: nat
    var pipe: Slots
    var socket: seq<Byte>
    var refused: bool           // the socket side returned 0
    var failure: Option<int>    // the error of a call that failed

    constructor (content: seq<Byte>, slots: nat)
      ensures file == content && capacity == slots && Fresh()
    {
      file, capacity := content, slots;
      offset, pipe, socket, refused, failure := 0, [], [], false, None;
    }

    predicate Fresh()
      reads this
    {
      offset == 0 && pipe == [] && socket == [] && !refused && failure.None?
    }

    /** Every byte taken from the file is in the socket or, behind it, in the pipe. */
    predicate Conserved()
      reads this
    {
      offset <= |file| && socket + Flat(pipe) == file[..offset] && NoneEmpty(pipe) && |pipe| <= capacity
    }

    ghost function View(eof: bool): Pump
      reads this
    {
      Pump(offset, pipe, |socket|, eof)
    }

    /** From the file to the pipe, one slot after the other. */
    method SpliceFromFile(requested: nat) returns (r: Outcome)
      requires Conserved() && requested > 0
      modifies this`offset, this`pipe, this`failure
      ensures Conserved()
      ensures requested > U32_MAX ==> r == Failed(INVALID_INPUT)
      ensures r.Blocked? <==> requested <= U32_MAX && old(|pipe|) == capacity
      ensures failure == if r.Failed? then Some(r.errno) else old(failure)
      ensures r.Moved? ==>
        offset == old(offset) + r.n && MayFill(file, capacity, requested, old(offset), old(pipe), r.n, pipe)
      ensures !r.Moved? ==> offset == old(offset) && pipe == old(pipe)
    {
      if requested > U32_MAX {
        failure := Some(INVALID_INPUT);
        return Failed(INVALID_INPUT);
      }
      if |pipe| == capacity {
        return Blocked;
      }
      var error: Option<int> := *;
      if error.Some? {
        failure := error;
        return Failed(error.value);
      }
      hide Flat; hide NoneEmpty; hide MayFill;
      var fill, moved := ChooseSlots(requested, capacity - |pipe|);
      FillWhole(file, capacity, requested, offset, pipe, socket, fill, moved);
      offset, pipe := offset + moved, pipe + fill;
      return Moved(moved);
    }

    /** The slots that one splice fills: any split of any number of bytes. */
    method ChooseSlots(requested: nat, room: nat) returns (fill: Slots, moved: nat)
      requires offset <= |file| && requested > 0 && room > 0
      ensures moved <= requested && offset + moved <= |file| && (moved == 0 <==> offset == |file|)
      ensures |fill| <= room && NoneEmpty(fill) && Flat(fill) == file[offset..offset + moved]
    {
      var more := true;
      fill, moved := [], 0;
      while more && |fill| < room && moved < requested && offset + moved < |file|
        invariant moved <= requested && offset + moved <= |file| && |fill| <= room
        invariant NoneEmpty(fill) && Flat(fill) == file[offset..offset + moved]
        invariant moved == 0 ==> more && fill == []
        decreases |file| - offset - moved
      {
        var size: nat :| 1 <= size <= requested - moved && size <= |file| - offset - moved;
        FillSlot(file, offset, fill, moved, size);
        fill, moved := fill + [file[offset + moved..offset + moved + size]], moved + size;
        more := *;
      }
    }

    /** From the pipe to the socket, which may take nothing. */
    method SpliceToSocket(requested: nat) returns (r: Outcome)
      requires Conserved() && 0 < requested <= |Flat(pipe)|
      modifies this`pipe, this`socket, this`refused, this`failure
      ensures Conserved() && !r.Blocked?
      ensures requested > U32_MAX ==> r == Failed(INVALID_INPUT)
      ensures failure == if r.Failed? then Some(r.errno) else old(failure)
      ensures r.Moved? ==>
        |socket| == old(|socket|) + r.n && MaySend(requested, old(pipe), r.n, pipe) && refused == (old(refused) || r.n == 0)
      ensures !r.Moved? ==> pipe == old(pipe) && socket == old(socket) && refused == old(refused)
    {
      if requested > U32_MAX {
        failure := Some(INVALID_INPUT);
        return Failed(INVALID_INPUT);
      }
      var error: Option<int> := *;
      if error.Some? {
        failure := error;
        return Failed(error.value);
      }
      var n: nat :| n <= requested;
      DrainFlat(pipe, n);
      assert socket + Flat(pipe)[..n] + Flat(pipe)[n..] == socket + Flat(pipe);
      socket, pipe, refused := socket + Flat(pipe)[..n], Drain(pipe, n), refused || n == 0;
      return Moved(n);
    }

    /** `sendfile`: from the file straight to the socket; 0 only at the end of the file. */
    method SendfileCall(requested: nat) returns (r: Outcome)
      requires Conserved() && requested > 0 && pipe == []
      modifies this`offset, this`socket, this`failure
      ensures Conserved() && !r.Blocked?
      ensures r.Failed? ==> failure == Some(r.errno) && offset == old(offset) && socket == old(socket)
      ensures r.Moved? ==> failure == old(failure) && offset == old(offset) + r.n && |socket| == old(|socket|) + r.n
      ensures r.Moved? ==> r.n <= requested && (r.n == 0 <==> old(offset) == |file|)
    {
      var error: Option<int> := *;
      if error.Some? {
        failure := error;
        return Failed(error.value);
      }
      var most := Min(requested, |file| - offset);
      var n: nat :| n <= most && (n == 0 ==> most == 0);
      assert file[..offset] + file[offset..offset + n] == file[..offset + n];
      offset, socket := offset + n, socket + file[offset..offset + n];
      return Moved(n);
    }
  }

  /** The slots filled are behind the old ones, and their bytes behind the bytes taken before. */
  lemma FillWhole(file: seq<Byte>, capacity: nat, requested: int, offset: nat, pipe: Slots, socket: seq<Byte>, fill: Slots, moved: nat)
    requires offset + moved <= |file| && moved <= requested && (moved == 0 <==> offset == |file|)
    requires |pipe| + |fill| <= capacity && NoneEmpty(pipe) && NoneEmpty(fill)
    requires Flat(fill) == file[offset..offset + moved] && socket + Flat(pipe) == file[..offset]
    ensures MayFill(file, capacity, requested, offset, pipe, moved, pipe + fill)
    ensures NoneEmpty(pipe + fill) && socket + Flat(pipe + fill) == file[..offset + moved]
  {
    hide Flat; hide NoneEmpty;
    Behind(pipe, fill);
    FillFlat(file, capacity, requested, offset, pipe, moved, pipe + fill);
    JoinBytes(file, offset, moved, socket, Flat(pipe));
  }

  lemma Behind(pipe: Slots, fill: Slots)
    ensures (pipe + fill)[|pipe|..] == fill && (pipe + fill)[..|pipe|] == pipe
  {
  }

  lemma JoinBytes(file: seq<Byte>, offset: nat, moved: nat, socket: seq<Byte>, held: seq<Byte>)
    requires offset + moved <= |file| && socket + held == file[..offset]
    ensures socket + (held + file[offset..offset + moved]) == file[..offset + moved]
  {
    assert socket + (held + file[offset..offset + moved]) == (socket + held) + file[offset..offset + moved];
    assert file[..offset] + file[offset..offset + moved] == file[..offset + moved];
  }

  /** One more slot filled from the file. */
  lemma FillSlot(file: seq<Byte>, offset: nat, fill: Slots, moved: nat, size: nat)
    requires offset + moved + size <= |file| && NoneEmpty(fill) && Flat(fill) == file[offset..offset + moved] && size > 0
    ensures var fill' := fill + [file[offset + moved..offset + moved + size]];
      Flat(fill') == file[offset..offset + moved + size] && NoneEmpty(fill')
  {
    var slot := file[offset + moved..offset + moved + size];
    FlatConcat(fill, [slot]);
    assert Flat([slot]) == slot;
  }

  // ---------------------------------------------------------------------------------------
  // The splice pump

  /** What either pump promises: the socket got a prefix of the file, in order and no longer than asked
      for; a success reports its length, which is all there was to send unless the socket refused; and an
      error is that of the call that failed. */
  ghost predicate Pumped(k: Kernel, len: nat, r: Result)
    reads k
  {
    && |k.socket| <= Min(len, |k.file|) && k.socket == k.file[..|k.socket|]
    && (r.Err? <==> k.failure.Some?)
    && (r.Err? ==> k.failure == Some(r.errno))
    && (r.Ok? ==> r.sent == |k.socket| && (!k.refused ==> r.sent == Min(len, |k.file|)))
  }

  lemma Sizes(k: Kernel)
    requires k.Conserved()
    ensures |k.socket| + |Flat(k.pipe)| == k.offset <= |k.file|
  {
    assert |k.socket + Flat(k.pipe)| == |k.file[..k.offset]|;
  }

  lemma IsPumped(k: Kernel, len: nat, r: Result)
    requires k.Conserved() && k.offset <= len && k.failure == (if r.Err? then Some(r.errno) else None)
    requires r.Ok? ==> r.sent == |k.socket| && (!k.refused ==> r.sent == Min(len, |k.file|))
    ensures Pumped(k, len, r)
  {
    Sizes(k);
    assert (k.socket + Flat(k.pipe))[..|k.socket|] == k.file[..k.offset][..|k.socket|];
  }

  /** The first half of a turn of the loop: ask the file for more.  `stop` is the result if the turn ends
      the loop. */
  method AskFile(k: Kernel, len: nat, usizeMax: nat, from: nat, eof: bool) returns (from': nat, eof': bool, stop: Option<Result>)
    requires k.Conserved() && from == k.offset <= len && usizeMax > 0 && k.failure.None?
    requires eof ==> k.offset == |k.file|
    modifies k`offset, k`pipe, k`failure
    ensures k.Conserved() && from' == k.offset <= len
    ensures eof' ==> k.offset == |k.file|
    ensures var j := Job(k.file, k.capacity, len, usizeMax);
      match stop
      case None => k.failure.None? && Asked(j, old(k.View(eof)), k.View(eof'))
      case Some(Stalled) => k.failure.None? && k.View(eof) == old(k.View(eof)) && Stalls(j, k.View(eof))
      case Some(Err(e)) => k.failure == Some(e) && k.View(eof) == old(k.View(eof))
      case Some(Ok(_)) => false
    ensures !eof && Min(len - from, usizeMax) > U32_MAX ==> stop == Some(Err(INVALID_INPUT))
  {
    hide Flat; hide NoneEmpty;
    from', eof', stop := from, eof, None;
    var fromLen := Min(len - from, usizeMax);
    if !eof && fromLen > 0 {
      var o := k.SpliceFromFile(fromLen);
      if o.Failed? {
        stop := Some(Err(o.errno));
      } else if o.Blocked? {
        stop := Some(Stalled);
      } else if o.n == 0 {
        eof' := true;
      } else {
        from' := from + o.n;
      }
    }
  }

  /** The second half: feed the socket.  `stop` if the socket took nothing. */
  method FeedSocket(k: Kernel, len: nat, usizeMax: nat, from: nat, to: nat, ghost eof: bool)
    returns (to': nat, stop: bool, error: Option<int>)
    requires k.Conserved() && from == k.offset && to == |k.socket| && usizeMax > 0 && k.failure.None? && !k.refused
    modifies k`pipe, k`socket, k`refused, k`failure
    ensures k.Conserved() && to' == |k.socket| <= k.offset && k.failure == error
    ensures error.Some? || stop <==> k.failure.Some? || k.refused
    ensures error.None? && !stop ==> Fed(Job(k.file, k.capacity, len, usizeMax), old(k.View(eof)), k.View(eof))
  {
    hide Flat; hide NoneEmpty; hide Drain;
    Sizes(k);
    to', stop, error := to, false, None;
    var toLen := Min(from - to, usizeMax);
    if toLen > 0 {
      var o := k.SpliceToSocket(toLen);
      if o.Failed? {
        error := Some(o.errno);
      } else if o.n == 0 {
        stop := true;
      } else {
        to' := to + o.n;
      }
      Sizes(k);
    }
  }

  /** `sendfile_exact_completion`, once its pipe exists.  `usizeMax` is the largest request the platform
      can express.  The turns taken are a run of PumpSpec. */
  method SendfileExactCompletion(k: Kernel, len: nat, usizeMax: nat)
    returns (r: Result, ghost run: seq<Pump>, ghost mids: seq<Pump>)
    requires k.Fresh() && k.capacity > 0 && usizeMax > 0
    modifies k
    ensures Pumped(k, len, r)
    ensures k.Conserved() && k.offset <= len
    // The pump waits for itself only as PumpSpec says.
    ensures IsPumping(Job(k.file, k.capacity, len, usizeMax), run, mids)
    ensures r.Stalled? ==> Stalls(Job(k.file, k.capacity, len, usizeMax), run[|mids|]) && MoreThanSlots(Job(k.file, k.capacity, len, usizeMax))
    // Nothing is sent of a transfer whose first request does not fit in 32 bits.
    ensures Min(len, usizeMax) > U32_MAX ==> r == Err(INVALID_INPUT) && k.socket == [] && k.offset == 0
  {
    hide Kernel.Conserved; hide Pumped; hide Asked; hide Fed; hide Stalls; hide MoreThanSlots;
    ghost var j := Job(k.file, k.capacity, len, usizeMax);
    FreshIsConserved(k);
    var totalFromFile: nat, totalToSocket: nat := 0, 0;
    var fileEof := false;
    run, mids := [START], [];
    while (totalFromFile < len && !fileEof) || totalToSocket < totalFromFile
      invariant totalToSocket <= totalFromFile <= len
      invariant k.Conserved() && totalFromFile == k.offset && totalToSocket == |k.socket|
      invariant fileEof ==> k.offset == |k.file|
      invariant k.failure.None? && !k.refused
      invariant IsPumping(j, run, mids) && run[|mids|] == k.View(fileEof)
      invariant Min(len, usizeMax) > U32_MAX ==> mids == []
      decreases len - totalFromFile + (if fileEof then 0 else 1), totalFromFile - totalToSocket
    {
      ghost var before := k.View(fileEof);
      var stop: Option<Result>;
      totalFromFile, fileEof, stop := AskFile(k, len, usizeMax, totalFromFile, fileEof);
      if stop.Some? {
        if stop.value.Stalled? {
          StallNeeds(j, run, mids);
        }
        IsPumped(k, len, stop.value);
        return stop.value, run, mids;
      }
      ghost var mid := k.View(fileEof);
      AskedProgress(j, before, mid);
      var refused: bool, error: Option<int>;
      totalToSocket, refused, error := FeedSocket(k, len, usizeMax, totalFromFile, totalToSocket, fileEof);
      if error.Some? {
        IsPumped(k, len, Err(error.value));
        return Err(error.value), run, mids;
      }
      if refused {
        break;
      }
      FedProgress(j, mid, k.View(fileEof));
      run, mids := run + [k.View(fileEof)], mids + [mid];
    }
    Sizes(k);
    IsPumped(k, len, Ok(totalToSocket));
    return Ok(totalToSocket), run, mids;
  }

  lemma FreshIsConserved(k: Kernel)
    requires k.Fresh()
    ensures k.Conserved()
  {
  }

  lemma AskedProgress(j: Job, s: Pump, mid: Pump)
    requires Asked(j, s, mid)
    ensures mid.offset >= s.offset && mid.sent == s.sent
    ensures !s.eof && s.offset < j.len && j.usizeMax > 0 ==> mid.eof || mid.offset > s.offset
    ensures s.eof || s.offset >= j.len ==> mid == s
  {
  }

  lemma FedProgress(j: Job, mid: Pump, s: Pump)
    requires Fed(j, mid, s)
    ensures s.offset == mid.offset && s.eof == mid.eof && s.sent >= mid.sent
    ensures mid.sent < mid.offset && j.usizeMax > 0 ==> s.sent > mid.sent
  {
  }

  // ---------------------------------------------------------------------------------------
  // The direct pump

  /** `sendfile_exact_poll`. */
  method SendfileExactPoll(k: Kernel, len: nat, usizeMax: nat) returns (r: Result)
    requires k.Fresh() && usizeMax > 0
    modifies k
    ensures Pumped(k, len, r) && !k.refused && !r.Stalled?
  {
    var total: nat := 0;
    while total < len
      invariant total <= len && k.Conserved() && k.pipe == [] && total == k.offset
      invariant k.failure.None? && !k.refused
    {
      var o := k.SendfileCall(Min(len - total, usizeMax));
      Sizes(k);
      if o.Failed? {
        IsPumped(k, len, Err(o.errno));
        return Err(o.errno);
      }
      if o.n == 0 {
        break;
      }
      total := total + o.n;
    }
    Sizes(k);
    IsPumped(k, len, Ok(total));
    return Ok(total);
  }
}
