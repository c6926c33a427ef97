/**
 What the bridge's state says about the run that led to it: the output is what the PTY was read, the exit code is the
 one the process was reaped with, the PTY's input is what clients and requests sent, and requests and clients are where
 their own actions have brought them.
 */
module BridgeTraces {
  import opened Bytes
  import opened Wrappers
  import opened Bridge
  import opened BridgeInvariants

  // ---------- output ----------

  /** All the bytes that PTY reads returned, in order. */
  function PtyRead(acts: seq<Action>): seq<Byte> {
    if acts == [] then []
    else
      var a := acts[|acts| - 1];
      PtyRead(acts[..|acts| - 1]) + if a.ReaderRead? then a.chunk else []
  }

  /** What the reader has been given and not buffered yet. */
  function InReader(s: State): seq<Byte> {
    if s.reader.Holding? then s.reader.chunk else []
  }

  lemma OutputStep(s: State, a: Action)
    requires Enabled(s, a) && LifeInv(s)
    ensures Flatten(Apply(s, a).chunks) + InReader(Apply(s, a))
         == Flatten(s.chunks) + InReader(s) + if a.ReaderRead? then a.chunk else []
  {
    var t := Apply(s, a);
    ChunksUntouched(s, a);
    if a.ReaderBuffer? {
      FlattenSnoc(s.chunks, s.reader.chunk);
      assert t.chunks == s.chunks + [s.reader.chunk];
    } else {
      ReaderAlone(s, a);
      HeldStep(s, a);
    }
    assert Flatten(s.chunks) + InReader(s) + [] == Flatten(s.chunks) + InReader(s);
  }

  lemma HeldStep(s: State, a: Action)
    requires Enabled(s, a) && LifeInv(s) && !a.ReaderBuffer?
    ensures if a.ReaderRead? then InReader(s) == [] && InReader(Apply(s, a)) == a.chunk
            else InReader(Apply(s, a)) == InReader(s)
  {
    ReaderAlone(s, a);
  }

  /** Nothing the PTY returned is dropped, changed or added on its way to the buffer. */
  lemma {:induction false} OutputIsRead(acts: seq<Action>, s: State)
    requires Exec(Init(), acts) == Some(s)
    ensures Flatten(s.chunks) + InReader(s) == PtyRead(acts)
  {
    if acts != [] {
      var mid := Exec(Init(), acts[..|acts| - 1]).value;
      OutputIsRead(acts[..|acts| - 1], mid);
      InvAlong(Init(), acts[..|acts| - 1], mid);
      OutputStep(mid, acts[|acts| - 1]);
    }
  }

  // ---------- the exit code ----------

  /** The code that the goroutine which waits for the process has, from the moment it has one. */
  function WaiterCode(s: State): Option<Int64> {
    match s.waiter
    case WaiterUnborn => None
    case Waiting => None
    case Reaped(code) => Some(code)
    case Marked(code) => Some(code)
    case DoneClosed(code) => Some(code)
    case Announcing(code, _) => Some(code)
    case Announced(code) => Some(code)
  }

  lemma CodeStep(s: State, a: Action)
    requires Enabled(s, a)
    ensures var t := Apply(s, a);
      WaiterCode(t) == if a.Reap? then Some(a.code) else if a.StartChild? && a.started then None else WaiterCode(s)
  {
  }

  /** The code is the one the process was reaped with. */
  lemma {:induction false} CodeIsReaped(acts: seq<Action>, s: State)
    requires Exec(Init(), acts) == Some(s)
    ensures WaiterCode(s).Some? ==> Reap(WaiterCode(s).value) in acts
    ensures s.up && !s.running ==> Reap(s.exitCode) in acts
  {
    InvAlong(Init(), acts, s);
    if acts != [] {
      var mid, a := Exec(Init(), acts[..|acts| - 1]).value, acts[|acts| - 1];
      CodeIsReaped(acts[..|acts| - 1], mid);
      CodeStep(mid, a);
    }
  }

  // ---------- the PTY's input ----------

  /** What request `r` arrived with. */
  function ArrivedWith(acts: seq<Action>, r: Id): Option<(Kind, seq<Byte>)> {
    if acts == [] then None
    else
      var a := acts[|acts| - 1];
      if a.Arrive? && a.req == r then Some((a.kind, a.input)) else ArrivedWith(acts[..|acts| - 1], r)
  }

  /** What the PTY was given: client input as it came, and of each write the part that was written. */
  function PtyGiven(acts: seq<Action>): seq<Input> {
    if acts == [] then []
    else
      var before, a := acts[..|acts| - 1], acts[|acts| - 1];
      PtyGiven(before) +
      match a
      case ClientInput(conn, bytes) => [Input(conn, bytes)]
      case PtyWrite(req, count) =>
        var w := ArrivedWith(before, req);
        if w.Some? && count <= |w.value.1| then [Input(req, w.value.1[..count])] else []
      case _ => []
  }

  /** Where a request stands, told from the actions alone. */
  predicate Stands(acts: seq<Action>, s: State, r: Id)
    requires r in s.requests
  {
    var w := ArrivedWith(acts, r);
    w.Some? &&
    var (kind, input) := w.value;
    match s.requests[r]
    case Checked(k, i) => k == kind && i == input && !kind.ReadKind? && NeverWritten(acts, r)
    case Draining => kind.ReadKind? || (kind.WriteReadKind? && PtyWrite(r, |input|) in acts)
    case Flagged(_, _) => kind.ReadKind? || (kind.WriteReadKind? && PtyWrite(r, |input|) in acts)
    case Answered(Lines(_, _)) => kind.ReadKind? || (kind.WriteReadKind? && PtyWrite(r, |input|) in acts)
    case Answered(Accepted) => kind.WriteKind? && PtyWrite(r, |input|) in acts
    case Answered(Rejected) => PtyWrite(r, |input|) !in acts
  }

  predicate NeverWritten(acts: seq<Action>, r: Id) {
    forall a <- acts :: a.PtyWrite? ==> a.req != r
  }

  ghost predicate StandsInv(acts: seq<Action>, s: State) {
    && (forall r <- s.requests :: Stands(acts, s, r))
    && (forall r: Id :: ArrivedWith(acts, r).Some? ==> r in s.requests)
    && (forall r: Id :: r !in s.requests ==> NeverWritten(acts, r))
  }

  lemma RequestAlone(s: State, a: Action, r: Id)
    requires Enabled(s, a) && r in s.requests
    requires !(RequestMoves(a) && a.req == r)
    ensures r in Apply(s, a).requests && Apply(s, a).requests[r] == s.requests[r]
  {
    RequestsAlone(s, a);
  }

  lemma StandsStep(before: seq<Action>, s: State, a: Action, r: Id)
    requires Enabled(s, a) && r in Apply(s, a).requests
    requires r in s.requests ==> Stands(before, s, r)
    requires r !in s.requests ==> ArrivedWith(before, r).None? && NeverWritten(before, r)
    ensures Stands(before + [a], Apply(s, a), r)
  {
    var acts := before + [a];
    assert acts[..|acts| - 1] == before;
    assert forall b :: b in before ==> b in acts;
    assert a in acts;
    if RequestMoves(a) && a.req == r {
      OwnStep(before, s, a, r);
    } else {
      RequestsAlone(s, a);
      if r in s.requests {
        RequestAlone(s, a, r);
      }
    }
  }

  lemma OwnStep(before: seq<Action>, s: State, a: Action, r: Id)
    requires Enabled(s, a) && RequestMoves(a) && a.req == r
    requires if r in s.requests then Stands(before, s, r) else NeverWritten(before, r)
    ensures r in Apply(s, a).requests && Stands(before + [a], Apply(s, a), r)
  {
    var acts := before + [a];
    assert acts[..|acts| - 1] == before;
    assert forall b :: b in before ==> b in acts;
    assert a in acts;
  }

  lemma GivenStep(before: seq<Action>, s: State, a: Action)
    requires Enabled(s, a) && StandsInv(before, s) && s.ptyIn == PtyGiven(before)
    ensures Apply(s, a).ptyIn == PtyGiven(before + [a])
  {
    assert (before + [a])[..|before + [a]| - 1] == before;
    assert PtyGiven(before) + [] == PtyGiven(before);
    if a.PtyWrite? {
      assert Stands(before, s, a.req);
      WriteGives(s, a.req, a.count);
    } else if !a.ClientInput? {
      InputAlone(s, a);
    }
  }

  lemma WriteGives(s: State, r: Id, count: nat)
    requires Enabled(s, PtyWrite(r, count))
    ensures Apply(s, PtyWrite(r, count)).ptyIn == s.ptyIn + [Input(r, s.requests[r].input[..count])]
  {
  }

  lemma StandsAll(before: seq<Action>, s: State, a: Action)
    requires Enabled(s, a) && StandsInv(before, s)
    ensures StandsInv(before + [a], Apply(s, a))
  {
    var acts, t := before + [a], Apply(s, a);
    assert acts[..|acts| - 1] == before;
    forall r <- t.requests ensures Stands(acts, t, r) {
      StandsStep(before, s, a, r);
    }
    forall r: Id ensures ArrivedWith(acts, r).Some? ==> r in t.requests
                 ensures r !in t.requests ==> NeverWritten(acts, r)
    {
      if RequestMoves(a) && a.req == r {
        assert r in t.requests;
      } else if r in s.requests {
        RequestAlone(s, a, r);
      }
    }
  }

  /**
   The PTY was given exactly what WebSocket clients sent and the written parts of what requests arrived with, in the
   order of the writes; and every request stands where its own actions have brought it: a write is accepted, and a
   combined request goes on to its read, only once all of its input was written.
   */
  lemma {:induction false} InputIsGiven(acts: seq<Action>, s: State)
    requires Exec(Init(), acts) == Some(s)
    ensures s.ptyIn == PtyGiven(acts) && forall r <- s.requests :: Stands(acts, s, r)
    ensures StandsInv(acts, s)
  {
    if acts != [] {
      var before := acts[..|acts| - 1];
      var mid := Exec(Init(), before).value;
      InputIsGiven(before, mid);
      assert acts == before + [acts[|acts| - 1]];
      StandsAll(before, mid, acts[|acts| - 1]);
      GivenStep(before, mid, acts[|acts| - 1]);
    }
  }

  // ---------- who is turned away ----------

  /** There is no session, or it has stopped and there is input for it. */
  predicate CannotServe(s: State, kind: Kind) {
    !s.up || (!kind.ReadKind? && !s.running)
  }

  /** Request `r` arrived when it could not be served. */
  predicate TurnedAway(acts: seq<Action>, r: Id) {
    if acts == [] then false
    else
      var before, a := acts[..|acts| - 1], acts[|acts| - 1];
      || TurnedAway(before, r)
      || (a.Arrive? && a.req == r && Exec(Init(), before).Some? && CannotServe(Exec(Init(), before).value, a.kind))
  }

  /** The PTY took less than all of what `r` arrived with. */
  predicate CutShort(acts: seq<Action>, r: Id) {
    if acts == [] then false
    else
      var before, a := acts[..|acts| - 1], acts[|acts| - 1];
      || CutShort(before, r)
      || (a.PtyWrite? && a.req == r && ArrivedWith(before, r).Some? && a.count < |ArrivedWith(before, r).value.1|)
  }

  predicate IsRejected(s: State, r: Id) {
    r in s.requests && s.requests[r] == Answered(Rejected)
  }

  predicate Refuses(before: seq<Action>, s: State, a: Action, r: Id) {
    || a == RejectBody(r)
    || (a.Arrive? && a.req == r && CannotServe(s, a.kind))
    || (a.PtyWrite? && a.req == r && ArrivedWith(before, r).Some? && a.count < |ArrivedWith(before, r).value.1|)
  }

  lemma RejectedOwn(before: seq<Action>, s: State, a: Action, r: Id)
    requires Enabled(s, a) && RequestMoves(a) && a.req == r && (r in s.requests ==> Stands(before, s, r))
    ensures IsRejected(Apply(s, a), r) <==> IsRejected(s, r) || Refuses(before, s, a, r)
  {
  }

  lemma RejectedStep(before: seq<Action>, s: State, a: Action, r: Id)
    requires Enabled(s, a) && StandsInv(before, s)
    ensures IsRejected(Apply(s, a), r) <==> IsRejected(s, r) || Refuses(before, s, a, r)
  {
    if RequestMoves(a) && a.req == r {
      RejectedOwn(before, s, a, r);
    } else {
      RequestsAlone(s, a);
      if r in s.requests {
        RequestAlone(s, a, r);
      }
    }
  }

  /** A request is refused exactly when it could not be served, its body was no good, or the PTY cut its input short. */
  lemma {:induction false} RejectedIff(acts: seq<Action>, s: State, r: Id)
    requires Exec(Init(), acts) == Some(s)
    ensures IsRejected(s, r) <==> TurnedAway(acts, r) || RejectBody(r) in acts || CutShort(acts, r)
  {
    if acts != [] {
      var before, a := acts[..|acts| - 1], acts[|acts| - 1];
      var mid := Exec(Init(), before).value;
      RejectedIff(before, mid, r);
      InputIsGiven(before, mid);
      RejectedStep(before, mid, a, r);
      assert acts == before + [a];
    }
  }

  // ---------- ends ----------

  lemma RequestsGoOn(s: State, a: Action)
    requires Enabled(s, a) && RequestMoves(a)
    ensures !Apply(s, a).halted
  {
  }

  lemma ReaderGoesOn(s: State, a: Action)
    requires Enabled(s, a) && ReaderMoves(a)
    ensures !Apply(s, a).halted
  {
  }

  lemma HaltElsewhere(s: State, a: Action)
    requires Enabled(s, a) && !RequestMoves(a) && !ReaderMoves(a)
    ensures Apply(s, a).halted <==> a.Halt?
  {
  }

  lemma HaltStep(s: State, a: Action)
    requires Enabled(s, a)
    ensures Apply(s, a).halted <==> a.Halt?
  {
    if RequestMoves(a) {
      RequestsGoOn(s, a);
    } else if ReaderMoves(a) {
      ReaderGoesOn(s, a);
    } else {
      HaltElsewhere(s, a);
    }
  }

  /** The program's end is its last step. */
  lemma {:induction false} HaltIsLast(acts: seq<Action>, s: State)
    requires Exec(Init(), acts) == Some(s)
    ensures s.halted <==> Halt in acts
    ensures Halt in acts ==> acts[|acts| - 1] == Halt
  {
    if acts != [] {
      var before, a := acts[..|acts| - 1], acts[|acts| - 1];
      HaltIsLast(before, Exec(Init(), before).value);
      HaltStep(Exec(Init(), before).value, a);
      assert acts == before + [a];
    }
  }

  lemma GoneStep(s: State, a: Action)
    requires Enabled(s, a) && LifeInv(s)
    ensures a.ReaderError? || s.reader.ReaderGone? ==> Apply(s, a).reader.ReaderGone?
    ensures s.reader.ReaderGone? ==> !a.ReaderRead?
  {
    if !a.ReaderError? {
      ReaderAlone(s, a);
    }
  }

  predicate ReadFailed(acts: seq<Action>) {
    acts != [] && (ReadFailed(acts[..|acts| - 1]) || acts[|acts| - 1].ReaderError?)
  }

  predicate NoReadAfterError(acts: seq<Action>) {
    acts == [] ||
    (NoReadAfterError(acts[..|acts| - 1]) && (acts[|acts| - 1].ReaderRead? ==> !ReadFailed(acts[..|acts| - 1])))
  }

  /** Once a read of the PTY has failed, the reader has returned and nothing is read any more. */
  lemma {:induction false} ErrorEndsReading(acts: seq<Action>, s: State)
    requires Exec(Init(), acts) == Some(s)
    ensures ReadFailed(acts) ==> s.reader.ReaderGone?
    ensures NoReadAfterError(acts)
  {
    if acts != [] {
      var mid := Exec(Init(), acts[..|acts| - 1]).value;
      ErrorEndsReading(acts[..|acts| - 1], mid);
      InvAlong(Init(), acts[..|acts| - 1], mid);
      GoneStep(mid, acts[|acts| - 1]);
    }
  }

  // ---------- clients ----------

  lemma ClientStep(s: State, a: Action, c: Id)
    requires Enabled(s, a)
    ensures c in Apply(s, a).clients <==> c in s.clients || a == AddClient(c)
    ensures c in Apply(s, a).clients ==>
      (Apply(s, a).clients[c].live <==> a != RemoveClient(c) && (c in s.clients ==> s.clients[c].live))
  {
    ClientsAlone(s, a);
  }

  /** A connection is registered exactly when it was added, and live until it is removed. */
  lemma {:induction false} ClientsAreAdded(acts: seq<Action>, s: State, c: Id)
    requires Exec(Init(), acts) == Some(s)
    ensures c in s.clients <==> AddClient(c) in acts
    ensures c in s.clients ==> (s.clients[c].live <==> RemoveClient(c) !in acts)
    ensures RemoveClient(c) in acts ==> c in s.clients
  {
    if acts != [] {
      var before, a := acts[..|acts| - 1], acts[|acts| - 1];
      var mid := Exec(Init(), before).value;
      ClientsAreAdded(before, mid, c);
      ClientStep(mid, a, c);
      assert acts == before + [a];
    }
  }

  // ---------- the announcement ----------

  predicate Told(s: State, c: Id) {
    c in s.clients && (Exits(s.clients[c].sends) > 0 || (s.waiter.Announcing? && c in s.waiter.todo))
  }

  lemma ToldStep(s: State, a: Action, c: Id)
    requires Enabled(s, a) && Told(s, c) && (s.waiter.Announcing? || s.waiter.Announced?) && LifeInv(s)
    ensures Told(Apply(s, a), c) && (Apply(s, a).waiter.Announcing? || Apply(s, a).waiter.Announced?)
  {
    SendsOf(s, a, c);
    var sends, more := s.clients[c].sends, Apply(s, a).clients[c].sends;
    if more != sends {
      SendSnoc(sends, more[|sends|]);
    }
    AnnounceControl(s, a, c);
  }

  lemma AnnounceControl(s: State, a: Action, c: Id)
    requires Enabled(s, a) && LifeInv(s) && (s.waiter.Announcing? || s.waiter.Announced?)
    ensures var t := Apply(s, a);
      && (t.waiter.Announcing? || t.waiter.Announced?)
      && (s.waiter.Announcing? && c in s.waiter.todo ==>
            (t.waiter.Announcing? && c in t.waiter.todo) || (a.AnnounceSend? && a.to == c))
  {
  }

  lemma {:induction false} ToldAlong(s: State, acts: seq<Action>, t: State, c: Id)
    requires Inv(s) && Exec(s, acts) == Some(t) && Told(s, c) && (s.waiter.Announcing? || s.waiter.Announced?)
    ensures Told(t, c)
    ensures t.waiter.Announcing? || t.waiter.Announced?
  {
    if acts != [] {
      var mid := Exec(s, acts[..|acts| - 1]).value;
      ToldAlong(s, acts[..|acts| - 1], mid, c);
      InvAlong(s, acts[..|acts| - 1], mid);
      ToldStep(mid, acts[|acts| - 1], c);
    }
  }

  /** Every client that is live when the announcement begins has been sent its exit, once, when it is over. */
  lemma EveryClientIsTold(s: State, acts: seq<Action>, t: State, c: Id)
    requires Reachable(s) && Enabled(s, AnnounceLock) && c in Live(s)
    requires Exec(Apply(s, AnnounceLock), acts) == Some(t) && t.waiter.Announced?
    ensures c in t.clients && Exits(t.clients[c].sends) == 1
  {
    ReachableInv(s);
    var u := Apply(s, AnnounceLock);
    InvKept(s, AnnounceLock);
    ToldAlong(u, acts, t, c);
    InvAlong(u, acts, t);
    assert ClientExit(t, c);
  }
}
