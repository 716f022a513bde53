/** `ReadOp` of op/read.rs: the future that submits a read once, waits for its completion and, when dropped
    while waiting, leaves its buffer with the driver. */
module ReadOpClass {
  import opened Basics
  import O = UringOps
  import P = UringPolls
  import opened UringDriverClass

  datatype Poll = Pending | Done(n: nat) | OsError(code: nat) | SubmitError

  /** How a completion's result reads: a count, or a negated error number. */
  function Decoded(result: int): Poll {
    if result < 0 then OsError(-result) else Done(result)
  }

  /** How a completion reports: a count as it is, an error number negated. */
  function Posted(p: Poll): int
    requires p.Done? || p.OsError?
  {
    if p.Done? then p.n else 0 - p.code
  }

  /** Counts and errors are told apart: what is read from a result is what was reported. */
  lemma DecodedExact(p: Poll, result: int)
    requires p.Done? || (p.OsError? && p.code > 0)
    ensures Decoded(result) == p <==> result == Posted(p)
    ensures Decoded(result).Done? <==> result >= 0
  {
  }

  class ReadOp {
    var completionToken: Option<nat>
    var buf: Option<O.Buffer>
    ghost var serial: nat     // its latest submission
    ghost var waker: Waker    // the waker of its latest pending poll

    ghost predicate Valid()
      reads this
    {
      buf.Some?
    }

    ghost function View(): O.ReadOp
      reads this
      requires Valid()
    {
      O.ReadOp(completionToken, buf.value, serial, waker)
    }

    constructor (buffer: O.Buffer)
      ensures Valid() && View() == O.ReadOp(None, buffer, 0, 0)
    {
      completionToken, buf := None, Some(buffer);
      serial, waker := 0, 0;
    }

    /** `poll_completion`.  `key` is the slab's vacant key; `ok` says whether the entry could be built and
        pushed.  The operation and the driver take the poll step of UringOps. */
    method PollCompletion(driver: UringDriver, w: Waker, key: nat, ok: bool) returns (p: Poll)
      requires Valid() && driver.Valid() && key !in driver.completions
      modifies this, driver
      ensures Valid() && driver.Valid() && driver.registrations == old(driver.registrations)
      ensures O.System(driver.slab, map[0 := View()], {}) == O.PollOp(old(O.System(driver.slab, map[0 := View()], {})), 0, w, key, ok)
      ensures p == match old(O.PollResult(O.System(driver.slab, map[0 := View()], {}), 0))
                   case Some(result) => Decoded(result)
                   case None => if old(completionToken).Some? || ok then Pending else SubmitError
    {
      hide P.Inv; hide O.SlabOk;
      ghost var before := View();
      if completionToken.Some? {
        var result := driver.GetCompletionResult(completionToken.value);
        if result.None? {
          driver.SetCompletionWaker(completionToken.value, w);
          waker := w;
          assert map[0 := before][0 := View()] == map[0 := View()];
          return Pending;
        }
        completionToken := None;
        assert map[0 := before][0 := View()] == map[0 := View()];
        return Decoded(result.value);
      }
      ghost var next := driver.slab.next;
      var token := driver.SubmitCompletion(key, w, ok, buf.value);
      if token.None? {
        return SubmitError;
      }
      completionToken := token;
      serial, waker := next, w;
      assert map[0 := before][0 := View()] == map[0 := View()];
      return Pending;
    }

    /** `Drop`: `current` is the driver of the runtime that is entered, if any; a waiting operation leaves its
        buffer there.  It does so in its own driver exactly if that is the current one. */
    method Drop(current: UringDriver?, ghost own: UringDriver)
      requires Valid() && (current != null ==> current.Valid()) && own.Valid()
      modifies this`buf, if current != null then {current} else {}
      ensures own.Valid() && own.registrations == old(own.registrations)
      ensures current != null ==> current.Valid() && current.registrations == old(current.registrations)
      ensures own.slab == O.DropOp(old(O.System(own.slab, map[0 := View()], {})), 0, current == own).slab
      ensures current != null ==>
        current.slab == if completionToken.Some? then O.Ignore(old(current.slab), completionToken.value, old(buf).value) else old(current.slab)
      ensures buf == if completionToken.Some? && current != null then None else old(buf)
    {
      hide P.Inv; hide O.SlabOk;
      if completionToken.Some? && current != null {
        current.IgnoreCompletion(completionToken.value, buf.value);
        buf := None;
      }
    }
  }
}
