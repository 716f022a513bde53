/** The splice pump of io/sendfile.rs as a state machine over the outcomes of its two system calls.

    A pipe has a fixed number of slots.  A splice from the file puts its bytes in new slots; a slot becomes
    free when all of it has gone to the socket.  A call moves as many bytes as it likes within what it is
    asked for. */
module PumpSpec {
  import opened Basics

  type Byte = bv8
  type Slots = seq<seq<Byte>>

  /** A splice submitted to io_uring takes a 32-bit length and is refused beyond. */
  const U32_MAX: nat := 0xFFFF_FFFF

  // ---------------------------------------------------------------------------------------
  // The pipe

  function Flat(pipe: Slots): seq<Byte> {
    if pipe == [] then [] else pipe[0] + Flat(pipe[1..])
  }

  predicate NoneEmpty(pipe: Slots) {
    forall i :: 0 <= i < |pipe| ==> pipe[i] != []
  }

  /** The pipe after its first `n` bytes have gone. */
  function Drain(pipe: Slots, n: nat): Slots
    decreases |pipe|
  {
    if pipe == [] || n == 0 then pipe
    else if n >= |pipe[0]| then Drain(pipe[1..], n - |pipe[0]|)
    else [pipe[0][n..]] + pipe[1..]
  }

  lemma {:induction false} FlatConcat(a: Slots, b: Slots)
    ensures Flat(a + b) == Flat(a) + Flat(b)
  {
    if a == [] {
      assert a + b == b;
    } else {
      assert (a + b)[1..] == a[1..] + b;
      FlatConcat(a[1..], b);
    }
  }

  lemma {:induction false} FlatSize(pipe: Slots)
    requires NoneEmpty(pipe)
    ensures |pipe| <= |Flat(pipe)|
  {
    if pipe != [] {
      FlatSize(pipe[1..]);
    }
  }

  lemma {:induction false} DrainFlat(pipe: Slots, n: nat)
    requires NoneEmpty(pipe) && n <= |Flat(pipe)|
    ensures Flat(Drain(pipe, n)) == Flat(pipe)[n..] && NoneEmpty(Drain(pipe, n)) && |Drain(pipe, n)| <= |pipe|
    decreases |pipe|
  {
    if pipe != [] && n > 0 {
      if n >= |pipe[0]| {
        DrainFlat(pipe[1..], n - |pipe[0]|);
      } else {
        assert Drain(pipe, n)[1..] == pipe[1..];
      }
    }
  }

  /** Taking bytes frees a slot if and only if they include all of the first one. */
  lemma RoomIff(pipe: Slots, n: nat)
    requires NoneEmpty(pipe) && pipe != [] && n <= |Flat(pipe)|
    ensures |Drain(pipe, n)| < |pipe| <==> n >= |pipe[0]|
  {
    if n >= |pipe[0]| {
      DrainFlat(pipe[1..], n - |pipe[0]|);
    }
  }

  // ---------------------------------------------------------------------------------------
  // What one call may do

  /** A splice of `n` bytes from the file: into new slots behind the old ones, and 0 only at the end of the
      file. */
  predicate MayFill(file: seq<Byte>, capacity: nat, requested: int, offset: nat, pipe: Slots, n: nat, pipe': Slots) {
    && offset + n <= |file| && n <= requested && (n == 0 <==> offset == |file|)
    && |pipe| <= |pipe'| <= capacity && pipe'[..|pipe|] == pipe
    && NoneEmpty(pipe'[|pipe|..]) && Flat(pipe'[|pipe|..]) == file[offset..offset + n]
  }

  /** A splice of `n` bytes to the socket, which may take nothing. */
  predicate MaySend(requested: int, pipe: Slots, n: nat, pipe': Slots) {
    n <= requested && pipe' == Drain(pipe, n)
  }

  lemma FillFlat(file: seq<Byte>, capacity: nat, requested: int, offset: nat, pipe: Slots, n: nat, pipe': Slots)
    requires MayFill(file, capacity, requested, offset, pipe, n, pipe') && NoneEmpty(pipe)
    ensures NoneEmpty(pipe') && Flat(pipe') == Flat(pipe) + file[offset..offset + n]
  {
    assert pipe' == pipe + pipe'[|pipe|..];
    FlatConcat(pipe, pipe'[|pipe|..]);
    forall i | 0 <= i < |pipe'| ensures pipe'[i] != [] {
      assert i >= |pipe| ==> pipe'[i] == pipe'[|pipe|..][i - |pipe|];
    }
  }

  // ---------------------------------------------------------------------------------------
  // Turns of the loop

  /** What the pump is asked to do: `usizeMax` is the largest request the platform can express. */
  datatype Job = Job(file: seq<Byte>, capacity: nat, len: nat, usizeMax: nat)

  datatype Pump = Pump(offset: nat, pipe: Slots, sent: nat, eof: bool)

  const START := Pump(0, [], 0, false)

  predicate Continues(j: Job, s: Pump) {
    (s.offset < j.len && !s.eof) || s.sent < s.offset
  }

  function Request(j: Job, s: Pump): int {
    Min(j.len - s.offset, j.usizeMax)
  }

  /** The first half of a turn. */
  predicate Asked(j: Job, s: Pump, mid: Pump) {
    if s.eof || Request(j, s) <= 0 then mid == s
    else
      && Request(j, s) <= U32_MAX && |s.pipe| < j.capacity && s.offset <= mid.offset
      && MayFill(j.file, j.capacity, Request(j, s), s.offset, s.pipe, mid.offset - s.offset, mid.pipe)
      && mid.sent == s.sent && mid.eof == (mid.offset == s.offset)
  }

  /** The second half; a socket that takes nothing ends the loop. */
  predicate Fed(j: Job, mid: Pump, s': Pump) {
    var toLen := Min(mid.offset - mid.sent, j.usizeMax);
    if toLen <= 0 then s' == mid
    else
      && toLen <= U32_MAX && mid.sent < s'.sent && s'.offset == mid.offset && s'.eof == mid.eof
      && MaySend(toLen, mid.pipe, s'.sent - mid.sent, s'.pipe)
  }

  /** Whole turns from the start, without an error. */
  predicate IsPumping(j: Job, run: seq<Pump>, mids: seq<Pump>) {
    && |run| == |mids| + 1 && run[0] == START
    && forall k :: 0 <= k < |mids| ==> Continues(j, run[k]) && Asked(j, run[k], mids[k]) && Fed(j, mids[k], run[k + 1])
  }

  /** The next call is a splice from the file into a pipe without a free slot, which only this pump could
      free. */
  predicate Stalls(j: Job, s: Pump) {
    !s.eof && 1 <= Request(j, s) <= U32_MAX && |s.pipe| == j.capacity
  }

  ghost predicate CanStall(j: Job) {
    exists run, mids :: IsPumping(j, run, mids) && Stalls(j, run[|mids|])
  }

  predicate Countable(j: Job, s: Pump) {
    && s.offset <= |j.file| && s.offset <= j.len
    && NoneEmpty(s.pipe) && |s.pipe| <= j.capacity && s.sent + |Flat(s.pipe)| == s.offset
    && (s.offset > 0 ==> Min(j.len, j.usizeMax) <= U32_MAX)
  }

  predicate PumpOk(j: Job, s: Pump) {
    Countable(j, s) && (s.sent == 0 ==> s.pipe == [])
  }

  lemma AskedOk(j: Job, s: Pump, mid: Pump)
    requires PumpOk(j, s) && Asked(j, s, mid)
    ensures Countable(j, mid)
  {
    if !(s.eof || Request(j, s) <= 0) {
      FillFlat(j.file, j.capacity, Request(j, s), s.offset, s.pipe, mid.offset - s.offset, mid.pipe);
    }
  }

  lemma FedOk(j: Job, mid: Pump, s': Pump)
    requires Countable(j, mid) && Fed(j, mid, s') && j.usizeMax > 0
    ensures PumpOk(j, s')
  {
    FlatSize(mid.pipe);
    if mid.sent < mid.offset {
      DrainFlat(mid.pipe, s'.sent - mid.sent);
    }
  }

  lemma {:induction false} PumpingOk(j: Job, run: seq<Pump>, mids: seq<Pump>, k: nat)
    requires IsPumping(j, run, mids) && k < |run| && j.usizeMax > 0
    ensures PumpOk(j, run[k])
  {
    if k > 0 {
      PumpingOk(j, run, mids, k - 1);
      hide PumpOk; hide Asked; hide Fed; hide Countable;
      AskedOk(j, run[k - 1], mids[k - 1]);
      FedOk(j, mids[k - 1], run[k]);
    }
  }

  /** The transfer is longer than the pipe has slots, and its first request fits in 32 bits. */
  predicate MoreThanSlots(j: Job) {
    j.capacity < Min(j.len - 1, |j.file|) && Min(j.len, j.usizeMax) <= U32_MAX
  }

  lemma StallNeeds(j: Job, run: seq<Pump>, mids: seq<Pump>)
    requires IsPumping(j, run, mids) && Stalls(j, run[|mids|]) && j.capacity > 0 && j.usizeMax > 0
    ensures MoreThanSlots(j)
  {
    PumpingOk(j, run, mids, |mids|);
    FlatSize(run[|mids|].pipe);
  }

  /** A pipe with every slot in use, two bytes in the first. */
  lemma FullPipe(file: seq<Byte>, capacity: nat) returns (pipe: Slots)
    requires 0 < capacity < |file|
    ensures |pipe| == capacity && NoneEmpty(pipe) && Flat(pipe) == file[..capacity + 1] && pipe[0] == file[..2]
  {
    pipe := [file[..2]];
    assert Flat(pipe) == file[..2];
    while |pipe| < capacity
      invariant 1 <= |pipe| <= capacity && NoneEmpty(pipe) && pipe[0] == file[..2] && Flat(pipe) == file[..|pipe| + 1]
    {
      var n := |pipe| + 1;
      FlatConcat(pipe, [[file[n]]]);
      assert Flat([[file[n]]]) == [file[n]];
      assert file[..n] + [file[n]] == file[..n + 1];
      pipe := pipe + [[file[n]]];
    }
  }

  lemma StallReached(j: Job) returns (run: seq<Pump>, mids: seq<Pump>)
    requires 0 < j.capacity < j.usizeMax && MoreThanSlots(j)
    ensures IsPumping(j, run, mids) && Stalls(j, run[|mids|])
  {
    var pipe := FullPipe(j.file, j.capacity);
    var n := j.capacity + 1;
    DrainFlat(pipe, 1);
    RoomIff(pipe, 1);
    var mid := Pump(n, pipe, 0, false);
    var last := Pump(n, Drain(pipe, 1), 1, false);
    assert pipe[..0] == [] && pipe[0..] == pipe && j.file[0..n] == j.file[..n];
    assert MayFill(j.file, j.capacity, Request(j, START), 0, [], n, pipe);
    assert Asked(j, START, mid);
    assert Fed(j, mid, last);
    run, mids := [START, last], [mid];
  }

  /** On a pipe with fewer slots than the platform can count bytes: some outcomes of the calls make the pump
      wait for itself if and only if the transfer is longer than the pipe has slots and its first request
      fits in 32 bits. */
  lemma StallIff(j: Job)
    requires 0 < j.capacity < j.usizeMax
    ensures CanStall(j) <==> MoreThanSlots(j)
  {
    if CanStall(j) {
      var run, mids :| IsPumping(j, run, mids) && Stalls(j, run[|mids|]);
      StallNeeds(j, run, mids);
    }
    if MoreThanSlots(j) {
      var run, mids := StallReached(j);
    }
  }

  /** With requests of one byte the pipe never holds more, and nothing stalls. */
  lemma {:induction false} OneByteNeverStalls(j: Job, run: seq<Pump>, mids: seq<Pump>, k: nat)
    requires IsPumping(j, run, mids) && k < |run| && j.usizeMax == 1 && j.capacity > 0
    ensures run[k].pipe == [] && !Stalls(j, run[k])
  {
    if k > 0 {
      OneByteNeverStalls(j, run, mids, k - 1);
      PumpingOk(j, run, mids, k - 1);
      PumpingOk(j, run, mids, k);
      AskedOk(j, run[k - 1], mids[k - 1]);
      FlatSize(run[k].pipe);
    }
  }
}
