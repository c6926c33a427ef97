/**
 The relay's `safeConn`: a closed flag checked twice around a mutex.  One step is one atomic operation of one
 writer or of `Close`, so a sequence of steps is one interleaving of any number of writers and closers.
 */
module SafeConns {
  import opened Wrappers

  type Tid = nat

  /** Where one `WriteMessage` call is. From `Checking` to `Written` the writer holds the mutex. */
  datatype Call =
    | Entered
    | Queued
    | Checking
    | Cleared
    | Writing
    | Written(ok: bool)
    | Refused
    | Returned(ok: bool)

  datatype Conn = Conn(
    closed: bool,
    rawClosed: bool,
    holder: Option<Tid>,
    calls: map<Tid, Call>,
    writes: nat,
    lateWrites: nat)

  datatype Step =
    | Enter(t: Tid)
    | FirstCheck(t: Tid)
    | Lock(t: Tid)
    | SecondCheck(t: Tid)
    | Begin(t: Tid)
    | End(t: Tid, ok: bool)
    | Unlock(t: Tid)
    | SetClosed
    | CloseRaw

  function Fresh(): Conn {
    Conn(false, false, None, map[], 0, 0)
  }

  predicate At(c: Conn, t: Tid, call: Call) {
    t in c.calls && c.calls[t] == call
  }

  predicate Enabled(c: Conn, s: Step) {
    match s
    case Enter(t) => t in c.calls ==> c.calls[t].Returned?
    case FirstCheck(t) => At(c, t, Entered)
    case Lock(t) => At(c, t, Queued) && c.holder.None?
    case SecondCheck(t) => At(c, t, Checking)
    case Begin(t) => At(c, t, Cleared)
    case End(t, _) => At(c, t, Writing)
    case Unlock(t) => t in c.calls && (c.calls[t].Written? || c.calls[t].Refused?)
    case SetClosed => true
    case CloseRaw => c.closed
  }

  function Apply(c: Conn, s: Step): Conn
    requires Enabled(c, s)
  {
    match s
    case Enter(t) => c.(calls := c.calls[t := Entered])
    case FirstCheck(t) => c.(calls := c.calls[t := if c.closed then Returned(false) else Queued])
    case Lock(t) => c.(holder := Some(t), calls := c.calls[t := Checking])
    case SecondCheck(t) => c.(calls := c.calls[t := if c.closed then Refused else Cleared])
    case Begin(t) =>
      c.(calls := c.calls[t := Writing], writes := c.writes + 1,
         lateWrites := c.lateWrites + if c.closed then 1 else 0)
    case End(t, ok) => c.(calls := c.calls[t := Written(ok)])
    case Unlock(t) => c.(holder := None, calls := c.calls[t := Returned(c.calls[t].Written? && c.calls[t].ok)])
    case SetClosed => c.(closed := true)
    case CloseRaw => c.(rawClosed := true)
  }

  function Exec(c: Conn, steps: seq<Step>): Option<Conn> {
    if steps == [] then Some(c)
    else
      match Exec(c, steps[..|steps| - 1])
      case None => None
      case Some(mid) =>
        var s := steps[|steps| - 1];
        if Enabled(mid, s) then Some(Apply(mid, s)) else None
  }

  predicate Holds(call: Call) {
    call.Checking? || call.Cleared? || call.Writing? || call.Written? || call.Refused?
  }

  predicate Inv(c: Conn) {
    && (forall t <- c.calls :: Holds(c.calls[t]) <==> c.holder == Some(t))
    && (c.holder.Some? ==> c.holder.value in c.calls)
    && (!c.closed ==> c.lateWrites == 0 && !c.rawClosed)
    && c.lateWrites + (if c.closed && c.holder.Some? && c.calls[c.holder.value].Cleared? then 1 else 0) <= 1
  }

  lemma InvKept(c: Conn, s: Step)
    requires Inv(c) && Enabled(c, s)
    ensures Inv(Apply(c, s))
  {
  }

  lemma {:induction false} ReachedInv(steps: seq<Step>, c: Conn)
    requires Exec(Fresh(), steps) == Some(c)
    ensures Inv(c)
  {
    if steps != [] {
      var mid := Exec(Fresh(), steps[..|steps| - 1]).value;
      ReachedInv(steps[..|steps| - 1], mid);
      InvKept(mid, steps[|steps| - 1]);
    }
  }

  /**
   Under any number of writers and closers: at most one underlying write is in progress, at most one starts after the
   closed flag is set, and the flag is set before the underlying connection is closed.
   */
  lemma WritesAreSafe(steps: seq<Step>, c: Conn)
    requires Exec(Fresh(), steps) == Some(c)
    ensures forall t, u | t in c.calls && u in c.calls :: c.calls[t].Writing? && c.calls[u].Writing? ==> t == u
    ensures c.lateWrites <= 1
    ensures c.rawClosed ==> c.closed
  {
    ReachedInv(steps, c);
  }

  /** The bound is met: a writer that was cleared just before the flag went up still writes. */
  lemma LateWriteHappens()
    ensures exists steps: seq<Step> :: Exec(Fresh(), steps).Some? && Exec(Fresh(), steps).value.lateWrites == 1
  {
    var c := Fresh();
    var steps: seq<Step> := [];
    steps, c := Next(Fresh(), steps, c, Enter(0));
    steps, c := Next(Fresh(), steps, c, FirstCheck(0));
    steps, c := Next(Fresh(), steps, c, Lock(0));
    steps, c := Next(Fresh(), steps, c, SecondCheck(0));
    steps, c := Next(Fresh(), steps, c, SetClosed);
    steps, c := Next(Fresh(), steps, c, Begin(0));
  }

  /** The holder of the mutex has passed the second check and is about to write. */
  predicate AboutToWrite(c: Conn) {
    c.holder.Some? && At(c, c.holder.value, Cleared)
  }

  predicate NoneCleared(c: Conn) {
    forall t <- c.calls :: !c.calls[t].Cleared?
  }

  lemma {:induction false} NoLateWrite(c: Conn, steps: seq<Step>, d: Conn)
    requires c.closed && NoneCleared(c) && Exec(c, steps) == Some(d)
    ensures d.closed && NoneCleared(d) && d.lateWrites == c.lateWrites
  {
    if steps != [] {
      var mid := Exec(c, steps[..|steps| - 1]).value;
      NoLateWrite(c, steps[..|steps| - 1], mid);
    }
  }

  ghost predicate LateWriteCanCome(c: Conn) {
    exists steps: seq<Step> :: Exec(c, steps).Some? && Exec(c, steps).value.lateWrites > c.lateWrites
  }

  /** With the flag set, an underlying write can still start exactly when the holder was cleared before it was set. */
  lemma LateWriteIff(steps: seq<Step>, c: Conn)
    requires Exec(Fresh(), steps) == Some(c) && c.closed
    ensures LateWriteCanCome(c) <==> AboutToWrite(c)
  {
    ReachedInv(steps, c);
    if AboutToWrite(c) {
      var more, d := Next(c, [], c, Begin(c.holder.value));
    } else {
      forall more: seq<Step> | Exec(c, more).Some? ensures Exec(c, more).value.lateWrites == c.lateWrites {
        NoLateWrite(c, more, Exec(c, more).value);
      }
    }
  }

  /** Not yet inside the mutex ... */
  predicate Outside(c: Conn, t: Tid) {
    t in c.calls ==> c.calls[t].Entered? || c.calls[t].Queued? || c.calls[t] == Returned(false)
  }

  /** ... or that queued behind the mutex: the second check turns it away. */
  predicate Barred(c: Conn, t: Tid) {
    Outside(c, t) || (t in c.calls && (c.calls[t].Checking? || c.calls[t].Refused?))
  }

  lemma BarredKept(c: Conn, s: Step, t: Tid)
    requires c.closed && Barred(c, t) && Enabled(c, s)
    ensures Apply(c, s).closed && Barred(Apply(c, s), t)
  {
  }

  /**
   After the flag is set, a caller that has not passed the second check never writes: whatever the others do, each
   of its calls ends with an error.
   */
  lemma {:induction false} ClosedRefuses(c: Conn, steps: seq<Step>, d: Conn, t: Tid)
    requires c.closed && Barred(c, t) && Exec(c, steps) == Some(d)
    ensures d.closed && Barred(d, t)
    ensures t in d.calls ==> !d.calls[t].Writing? && d.calls[t] != Returned(true)
  {
    if steps != [] {
      var mid := Exec(c, steps[..|steps| - 1]).value;
      ClosedRefuses(c, steps[..|steps| - 1], mid, t);
      BarredKept(mid, steps[|steps| - 1], t);
    }
  }

  /** In no call, or at the very start of one. */
  predicate AtDoor(c: Conn, t: Tid) {
    t in c.calls ==> c.calls[t].Entered? || c.calls[t].Returned?
  }

  lemma DoorKept(c: Conn, s: Step, t: Tid)
    requires c.closed && AtDoor(c, t) && c.holder != Some(t) && Enabled(c, s)
    ensures Apply(c, s).closed && AtDoor(Apply(c, s), t) && Apply(c, s).holder != Some(t)
  {
  }

  /** The first check: a caller that comes once the flag is set is turned away before it ever waits for the mutex. */
  lemma {:induction false} LateCallerNeverLocks(c: Conn, steps: seq<Step>, d: Conn, t: Tid)
    requires c.closed && AtDoor(c, t) && c.holder != Some(t) && Exec(c, steps) == Some(d)
    ensures d.closed && AtDoor(d, t) && d.holder != Some(t)
  {
    if steps != [] {
      var mid := Exec(c, steps[..|steps| - 1]).value;
      LateCallerNeverLocks(c, steps[..|steps| - 1], mid, t);
      DoorKept(mid, steps[|steps| - 1], t);
    }
  }

  /** The object itself, one call at a time: each method is the run of its own steps. */
  class SafeConn {
    var closed: bool
    var rawClosed: bool
    var sent: seq<string>
    ghost var model: Conn

    ghost predicate Valid()
      reads this
    {
      && model.closed == closed && model.rawClosed == rawClosed
      && model.holder.None? && model.calls == map[] && model.writes == |sent|
    }

    constructor ()
      ensures Valid() && !closed && !rawClosed && sent == []
    {
      closed, rawClosed, sent, model := false, false, [], Fresh();
    }

    /** `rawOk` is what the underlying connection answers. */
    method WriteMessage(data: string, rawOk: bool) returns (ok: bool)
      requires Valid()
      modifies this
      ensures Valid() && closed == old(closed) && rawClosed == old(rawClosed)
      ensures ok == (!old(closed) && rawOk)
      ensures sent == if old(closed) then old(sent) else old(sent) + [data]
      ensures exists steps: seq<Step>, d: Conn ::
        Exec(old(model), steps) == Some(d) && model == d.(calls := map[]) && d.calls == map[0 := Returned(ok)]
    {
      ghost var steps, d := OneCall(model, rawOk);
      if closed {
        ok := false;
      } else {
        sent := sent + [data];
        ok := rawOk;
      }
      model := d.(calls := map[]);
    }

    method Close()
      requires Valid()
      modifies this
      ensures Valid() && closed && rawClosed && sent == old(sent)
      ensures model == Apply(Apply(old(model), SetClosed), CloseRaw)
    {
      closed := true;
      rawClosed := true;
      model := Apply(Apply(model, SetClosed), CloseRaw);
    }
  }

  lemma Next(c: Conn, steps: seq<Step>, mid: Conn, s: Step) returns (more: seq<Step>, d: Conn)
    requires Exec(c, steps) == Some(mid) && Enabled(mid, s)
    ensures d == Apply(mid, s) && Exec(c, more) == Some(d)
  {
    more, d := steps + [s], Apply(mid, s);
    assert more[..|steps|] == steps;
  }

  lemma OneCall(c: Conn, rawOk: bool) returns (steps: seq<Step>, d: Conn)
    requires c.holder.None? && c.calls == map[]
    ensures Exec(c, steps) == Some(d) && d.closed == c.closed && d.holder.None?
    ensures d.calls == map[0 := Returned(!c.closed && rawOk)] && d.rawClosed == c.rawClosed
    ensures d.writes == c.writes + if c.closed then 0 else 1
  {
    steps, d := Next(c, [], c, Enter(0));
    steps, d := Next(c, steps, d, FirstCheck(0));
    if !c.closed {
      steps, d := Next(c, steps, d, Lock(0));
      steps, d := Next(c, steps, d, SecondCheck(0));
      steps, d := Next(c, steps, d, Begin(0));
      steps, d := Next(c, steps, d, End(0, rawOk));
      steps, d := Next(c, steps, d, Unlock(0));
    }
  }
}
