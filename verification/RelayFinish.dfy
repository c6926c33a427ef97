/**
 A relay session can always come to its end: from every state that any interleaving leads to, the SSH side only has to
 stop the output for the goroutines, the handler and the connection to finish, whatever was in progress.
 */
module RelayFinishes {
  import opened Wrappers
  import opened RelaySessions
  import S = SafeConns

  // ---------- how far there is to go ----------

  function CallRank(call: S.Call): nat {
    match call
    case Entered => 7
    case Queued => 6
    case Checking => 5
    case Cleared => 4
    case Writing => 3
    case Written(_) => 2
    case Refused => 2
    case Returned(_) => 1
  }

  function PlaceRank(p: Place, conn: S.Conn, t: S.Tid): nat {
    match p
    case Unborn => 20
    case Sending => 4 + if t in conn.calls then CallRank(conn.calls[t]) else 0
    case AtSelect => 3
    case Blocked => 2
    case Leaving => 1
    case Gone => 0
  }

  function RankOf(s: Session, g: Name): nat {
    PlaceRank(s.at.Of(g), s.conn, Tid(g))
  }

  function MainRank(m: Main): nat {
    match m
    case Starting(next, added) => 4 + 2 * (if next < 4 then 4 - next else 0) + if added then 0 else 1
    case Exiting => 3
    case ClosingFlag => 2
    case ClosingRaw => 1
    case Finished => 0
  }

  function Rank(s: Session): nat {
    MainRank(s.main) + RankOf(s, Ping) + RankOf(s, Input) + RankOf(s, Output) + RankOf(s, Resize)
  }

  // ---------- the next step ----------

  /** What the goroutine inside the mutex does next. */
  function HolderStep(conn: S.Conn, t: S.Tid): S.Step
    requires t in conn.calls
  {
    match conn.calls[t]
    case Checking => S.SecondCheck(t)
    case Cleared => S.Begin(t)
    case Writing => S.End(t, true)
    case _ => S.Unlock(t)
  }

  /** One step towards the end of the write that goroutine `g` is in: its own, or the mutex holder's. */
  function WriteStep(s: Session, g: Name): Act
    requires Tid(g) in s.conn.calls && (s.conn.holder.Some? ==> s.conn.holder.value in s.conn.calls)
  {
    var t := Tid(g);
    match s.conn.calls[t]
    case Returned(_) => WriteReturns(g)
    case Entered => ConnStep(S.FirstCheck(t))
    case Queued => ConnStep(if s.conn.holder.None? then S.Lock(t) else HolderStep(s.conn, s.conn.holder.value))
    case _ => ConnStep(HolderStep(s.conn, t))
  }

  /** One step towards the end of goroutine `g`, once `done` is closed. */
  function LeaveStep(s: Session, g: Name): Act
    requires s.at.Of(g).Sending? ==>
      Tid(g) in s.conn.calls && (s.conn.holder.Some? ==> s.conn.holder.value in s.conn.calls)
  {
    match s.at.Of(g)
    case Sending => WriteStep(s, g)
    case AtSelect => See(g, false)
    case Blocked => if g.Output? then ReadOutput(true) else ReadInput(false)
    case _ => WgDone(g)
  }

  predicate IsOver(p: Place) {
    p.Unborn? || p.Gone?
  }

  /** The goroutine to bring to its end next: the output goroutine first, since the others leave by `done`. */
  function NextToLeave(s: Session): Option<Name> {
    if !IsOver(s.at.output) then Some(Output)
    else if !IsOver(s.at.ping) then Some(Ping)
    else if !IsOver(s.at.input) then Some(Input)
    else if !IsOver(s.at.resize) then Some(Resize)
    else None
  }

  /** A step that is enabled and gets the session nearer to its end. */
  ghost predicate Nearer(s: Session, x: Act) {
    Can(s, x) && Rank(Do(s, x)) < Rank(s)
  }

  lemma MoveRank(s: Session, t: Session, g: Name)
    requires t.main == s.main && RankOf(t, g) < RankOf(s, g)
    requires forall h: Name :: h != g ==> RankOf(t, h) == RankOf(s, h)
    ensures Rank(t) < Rank(s)
  {
    assert forall h: Name :: RankOf(t, h) <= RankOf(s, h);
    match g {
      case Ping =>
      case Input =>
      case Output =>
      case Resize =>
    }
  }

  /** A connection step takes the call it belongs to further, and no other. */
  lemma ConnStepNearer(s: Session, c: S.Step)
    requires Inv(s) && WriterStep(c) && S.Enabled(s.conn, c)
    requires CallRank(S.Apply(s.conn, c).calls[c.t]) < CallRank(s.conn.calls[c.t])
    ensures Nearer(s, ConnStep(c))
  {
    StepperIsSending(s, c);
    var t, g := Do(s, ConnStep(c)), NameOf(c.t);
    forall h: Name | h != g ensures RankOf(t, h) == RankOf(s, h) {
      assert Tid(h) != c.t;
    }
    MoveRank(s, t, g);
  }

  lemma HolderNearer(s: Session, t: S.Tid)
    requires Inv(s) && t in s.conn.calls && S.Holds(s.conn.calls[t])
    ensures Nearer(s, ConnStep(HolderStep(s.conn, t)))
  {
    ConnStepNearer(s, HolderStep(s.conn, t));
  }

  lemma WriteNearer(s: Session, g: Name)
    requires Inv(s) && s.at.Of(g).Sending?
    ensures Nearer(s, WriteStep(s, g))
  {
    var t := Tid(g);
    match s.conn.calls[t] {
      case Returned(_) =>
        MoveRank(s, Do(s, WriteReturns(g)), g);
      case Entered =>
        ConnStepNearer(s, S.FirstCheck(t));
      case Queued =>
        if s.conn.holder.None? {
          ConnStepNearer(s, S.Lock(t));
        } else {
          HolderNearer(s, s.conn.holder.value);
        }
      case _ =>
        HolderNearer(s, t);
    }
  }

  lemma LeaveNearer(s: Session, g: Name)
    requires Inv(s) && NextToLeave(s) == Some(g) && (g != Output ==> s.done)
    ensures Nearer(s, LeaveStep(s, g))
  {
    if s.at.Of(g).Sending? {
      WriteNearer(s, g);
    } else {
      MoveRank(s, Do(s, LeaveStep(s, g)), g);
    }
  }

  /** The handler's step, when it has one without waiting. */
  function HandlerStep(s: Session): Act {
    match s.main
    case Starting(next, added) => if next == Total(s.pings) then WaitOver else if added then StartOne else AddOne
    case Exiting => Exit
    case ClosingFlag => SetFlag
    case _ => CloseConn
  }

  predicate Waits(s: Session) {
    s.main == Starting(Total(s.pings), false)
  }

  lemma StartNearer(s: Session)
    requires Inv(s) && s.main.Starting? && s.main.next < Total(s.pings)
    ensures Nearer(s, HandlerStep(s))
  {
    if s.main.added {
      var g := Starter(s.pings, s.main.next);
      var t := Do(s, StartOne);
      assert s.at.Of(g).Unborn?;
      assert forall h: Name :: h != g ==> t.at.Of(h) == s.at.Of(h);
      assert RankOf(t, g) < RankOf(s, g);
      assert forall h: Name :: RankOf(t, h) <= RankOf(s, h);
    }
  }

  lemma EndNearer(s: Session)
    requires Inv(s) && !s.main.Finished? && (s.main.Starting? ==> Waits(s) && s.wg == 0)
    ensures Nearer(s, HandlerStep(s))
  {
    NobodySendsNow(s);
    var t := Do(s, HandlerStep(s));
    assert forall h: Name :: RankOf(t, h) == RankOf(s, h);
  }

  lemma NobodySendsNow(s: Session)
    requires Inv(s) && s.wg == 0
    ensures forall g: Name :: IsOver(s.at.Of(g))
    ensures forall t <- s.conn.calls :: s.conn.calls[t].Returned?
  {
    assert Live(s) == 0;
    forall t <- s.conn.calls ensures s.conn.calls[t].Returned? {
      assert Tid(NameOf(t)) == t && !s.at.Of(NameOf(t)).Sending?;
    }
  }

  /** The step that leads on from any state of the invariant. */
  function NextAct(s: Session): Act
    requires Inv(s)
  {
    if Waits(s) && NextToLeave(s).Some? then LeaveStep(s, NextToLeave(s).value) else HandlerStep(s)
  }

  lemma NextIsNearer(s: Session)
    requires Inv(s) && !s.main.Finished?
    ensures Nearer(s, NextAct(s))
  {
    if s.main.Starting? && s.main.next < Total(s.pings) {
      StartNearer(s);
    } else if Waits(s) && NextToLeave(s).Some? {
      assert NextToLeave(s) != Some(Output) ==> s.at.output.Gone?;
      LeaveNearer(s, NextToLeave(s).value);
    } else {
      EndNearer(s);
    }
  }

  // ---------- the theorem ----------

  ghost predicate CanFinish(pings: bool, acts: seq<Act>) {
    exists more: seq<Act> :: Play(pings, acts + more).Some? && Play(pings, acts + more).value.main.Finished?
  }

  lemma CanFinishBy(pings: bool, acts: seq<Act>, x: Act)
    requires CanFinish(pings, acts + [x])
    ensures CanFinish(pings, acts)
  {
    var more :| Play(pings, acts + [x] + more).Some? && Play(pings, acts + [x] + more).value.main.Finished?;
    assert acts + ([x] + more) == acts + [x] + more;
  }

  /** No interleaving is a dead end: whatever has happened, there is a way on to the session's end. */
  lemma {:induction false} SessionCanAlwaysFinish(pings: bool, acts: seq<Act>, s: Session)
    requires Play(pings, acts) == Some(s)
    ensures CanFinish(pings, acts)
    decreases Rank(s)
  {
    if s.main.Finished? {
      assert acts + [] == acts;
    } else {
      InvAlways(pings, acts, s);
      NextIsNearer(s);
      var x := NextAct(s);
      assert (acts + [x])[..|acts|] == acts;
      SessionCanAlwaysFinish(pings, acts + [x], Do(s, x));
      CanFinishBy(pings, acts, x);
    }
  }
}
