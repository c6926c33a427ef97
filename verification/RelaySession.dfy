/**
 The relay's session after dialling: the handler, which starts up to four goroutines and waits for them, and the
 goroutines themselves, sharing `done`, the WaitGroup and one `safeConn`.  Every write runs the steps of
 `SafeConns`, so the writers interleave inside the connection too.
 */
module RelaySessions {
  import opened Wrappers
  import S = SafeConns

  datatype Name = Ping | Input | Output | Resize

  /** A goroutine. `AtSelect` is the top of its loop, `Blocked` a read in progress, `Leaving` the deferred `wg.Done`. */
  datatype Place = Unborn | AtSelect | Blocked | Sending | Leaving | Gone

  /** The handler: it adds to the WaitGroup, then starts the goroutine, for each in turn; then it waits. */
  datatype Main = Starting(next: nat, added: bool) | Exiting | ClosingFlag | ClosingRaw | Finished

  datatype Places = Places(ping: Place, input: Place, output: Place, resize: Place)
  {
    function Of(g: Name): Place {
      match g
      case Ping => ping
      case Input => input
      case Output => output
      case Resize => resize
    }

    function With(g: Name, p: Place): (r: Places)
      ensures forall h: Name :: r.Of(h) == if h == g then p else Of(h)
    {
      match g
      case Ping => this.(ping := p)
      case Input => this.(input := p)
      case Output => this.(output := p)
      case Resize => this.(resize := p)
    }
  }

  datatype Session = Session(
    pings: bool,
    main: Main,
    at: Places,
    wg: int,
    done: bool,
    closes: nat,
    exited: bool,
    conn: S.Conn,
    inputAfterDone: nat)

  datatype Act =
    | AddOne
    | StartOne
    | WaitOver
    | Exit
    | SetFlag
    | CloseConn
    | See(g: Name, woken: bool)
    | ReadInput(ok: bool)
    | ReadOutput(stop: bool)
    | ConnStep(s: S.Step)
    | WriteReturns(g: Name)
    | WgDone(g: Name)

  function Tid(g: Name): S.Tid {
    match g
    case Ping => 0
    case Input => 1
    case Output => 2
    case Resize => 3
  }

  /** How many goroutines there will be; the ping goroutine only exists with a positive interval. */
  function Total(pings: bool): nat {
    if pings then 4 else 3
  }

  /** Their starting order. */
  function Starter(pings: bool, i: nat): Name {
    match (if pings then i else i + 1)
    case 0 => Ping
    case 1 => Input
    case 2 => Output
    case _ => Resize
  }

  function Begin(pings: bool): Session {
    Session(pings, Starting(0, false), Places(Unborn, Unborn, Unborn, Unborn), 0, false, 0, false, S.Fresh(), 0)
  }

  /** The steps of a write in progress; entering and the closing of the connection are separate actions. */
  predicate WriterStep(x: S.Step) {
    !x.Enter? && !x.SetClosed? && !x.CloseRaw?
  }

  predicate Can(s: Session, x: Act) {
    match x
    case AddOne => s.main.Starting? && !s.main.added && s.main.next < Total(s.pings)
    case StartOne => s.main.Starting? && s.main.added && s.main.next < Total(s.pings)
    case WaitOver => s.main == Starting(Total(s.pings), false) && s.wg == 0
    case Exit => s.main.Exiting?
    case SetFlag => s.main.ClosingFlag?
    case CloseConn => s.main.ClosingRaw? && S.Enabled(s.conn, S.CloseRaw)
    case See(g, woken) => s.at.Of(g) == AtSelect && g != Output && (!woken ==> s.done || g == Resize)
                          && (g == Input && woken ==> !s.done) && (g != Input && woken ==> CanEnter(s, g))
    case ReadInput(ok) => s.at.Of(Input) == Blocked && (ok ==> CanEnter(s, Input))
    case ReadOutput(_) => s.at.Of(Output) == Blocked
    case ConnStep(c) => WriterStep(c) && S.Enabled(s.conn, c)
    case WriteReturns(g) => s.at.Of(g) == Sending && Tid(g) in s.conn.calls && s.conn.calls[Tid(g)].Returned?
    case WgDone(g) => s.at.Of(g) == Leaving
  }

  predicate CanEnter(s: Session, g: Name) {
    S.Enabled(s.conn, S.Enter(Tid(g)))
  }

  function Move(s: Session, g: Name, p: Place): Session {
    s.(at := s.at.With(g, p))
  }

  function StartWrite(s: Session, g: Name): Session
    requires CanEnter(s, g)
  {
    Move(s, g, Sending).(conn := S.Apply(s.conn, S.Enter(Tid(g))))
  }

  function Do(s: Session, x: Act): Session
    requires Can(s, x)
  {
    match x
    case AddOne => s.(wg := s.wg + 1, main := s.main.(added := true))
    case StartOne =>
      var g := Starter(s.pings, s.main.next);
      Move(s, g, if g == Output then Blocked else AtSelect).(main := Starting(s.main.next + 1, false))
    case WaitOver => s.(main := Exiting)
    case Exit => s.(main := ClosingFlag, exited := true)
    case SetFlag => s.(main := ClosingRaw, conn := S.Apply(s.conn, S.SetClosed))
    case CloseConn => s.(main := Finished, conn := S.Apply(s.conn, S.CloseRaw))
    case See(g, woken) =>
      if !woken then Move(s, g, Leaving)
      else if g.Input? then Move(s, g, Blocked)
      else StartWrite(s, g)
    case ReadInput(ok) =>
      if !ok then Move(s, Input, Leaving)
      else StartWrite(s, Input).(inputAfterDone := s.inputAfterDone + if s.done then 1 else 0)
    case ReadOutput(stop) =>
      if !stop then s
      else Move(s, Output, Leaving).(done := true, closes := s.closes + 1)
    case ConnStep(c) => s.(conn := S.Apply(s.conn, c))
    case WriteReturns(g) =>
      var call := s.conn.calls[Tid(g)];
      Move(s, g, if call.ok then AtSelect else Leaving)
    case WgDone(g) => Move(s, g, Gone).(wg := s.wg - 1)
  }

  function Play(pings: bool, acts: seq<Act>): Option<Session> {
    if acts == [] then Some(Begin(pings))
    else
      match Play(pings, acts[..|acts| - 1])
      case None => None
      case Some(mid) =>
        var x := acts[|acts| - 1];
        if Can(mid, x) then Some(Do(mid, x)) else None
  }

  // ---------- invariant ----------

  function Alive(p: Place): nat {
    if p.Unborn? || p.Gone? then 0 else 1
  }

  function Live(s: Session): nat {
    Alive(s.at.ping) + Alive(s.at.input) + Alive(s.at.output) + Alive(s.at.resize)
  }

  /** How many goroutines the handler has started. */
  function StartedCount(s: Session): nat {
    if s.main.Starting? then s.main.next else Total(s.pings)
  }

  predicate WaitInv(s: Session) {
    && s.wg == Live(s) + (if s.main.Starting? && s.main.added then 1 else 0)
    && StartedCount(s) <= Total(s.pings)
    && (s.main.Starting? && s.main.added ==> s.main.next < Total(s.pings))
    && (s.at.ping.Unborn? <==> !s.pings || StartedCount(s) == 0)
    && (s.at.input.Unborn? <==> StartedCount(s) < Total(s.pings) - 2)
    && (s.at.output.Unborn? <==> StartedCount(s) < Total(s.pings) - 1)
    && (s.at.resize.Unborn? <==> StartedCount(s) < Total(s.pings))
    && (!s.main.Starting? ==> s.wg == 0)
  }

  predicate DoneInv(s: Session) {
    && s.closes == (if s.done then 1 else 0)
    && (s.done <==> s.at.output.Leaving? || s.at.output.Gone?)
    && !s.at.output.AtSelect? && !s.at.output.Sending?
    && !s.at.ping.Blocked? && !s.at.resize.Blocked?
    && s.inputAfterDone + (if s.done && s.at.input.Blocked? then 1 else 0) <= (if s.done then 1 else 0)
    && (s.exited <==> s.main.ClosingFlag? || s.main.ClosingRaw? || s.main.Finished?)
  }

  predicate ConnInv(s: Session) {
    && S.Inv(s.conn)
    && (forall t <- s.conn.calls :: t < 4)
    && (forall g: Name :: Tid(g) in s.conn.calls && !s.conn.calls[Tid(g)].Returned? ==> s.at.Of(g).Sending?)
    && (forall g: Name :: s.at.Of(g).Sending? ==> Tid(g) in s.conn.calls)
    && (s.conn.closed <==> s.main.ClosingRaw? || s.main.Finished?)
    && (s.conn.rawClosed <==> s.main.Finished?)
    && s.conn.lateWrites == 0
  }

  predicate Inv(s: Session) {
    WaitInv(s) && DoneInv(s) && ConnInv(s)
  }

  lemma InvKept(s: Session, x: Act)
    requires Inv(s) && Can(s, x)
    ensures Inv(Do(s, x))
  {
    WaitKept(s, x);
    DoneKept(s, x);
    ConnKept(s, x);
  }

  lemma WaitKept(s: Session, x: Act)
    requires WaitInv(s) && DoneInv(s) && Can(s, x)
    ensures WaitInv(Do(s, x))
  {
    match x {
      case See(g, woken) => MoveKept(s, Do(s, x), g);
      case ReadInput(ok) => MoveKept(s, Do(s, x), Input);
      case ReadOutput(stop) => MoveKept(s, Do(s, x), Output);
      case WriteReturns(g) => MoveKept(s, Do(s, x), g);
      case ConnStep(c) =>
      case _ => HandlerKept(s, x);
    }
  }

  lemma HandlerKept(s: Session, x: Act)
    requires WaitInv(s) && Can(s, x)
    requires x.AddOne? || x.StartOne? || x.WaitOver? || x.Exit? || x.SetFlag? || x.CloseConn? || x.WgDone?
    ensures WaitInv(Do(s, x))
  {
  }

  lemma MoveKept(s: Session, t: Session, g: Name)
    requires WaitInv(s) && Alive(s.at.Of(g)) == 1
    requires t.at == s.at || (exists p: Place :: t.at == s.at.With(g, p) && Alive(p) == 1)
    requires t.main == s.main && t.wg == s.wg && t.pings == s.pings
    ensures WaitInv(t)
  {
  }

  lemma DoneKept(s: Session, x: Act)
    requires WaitInv(s) && DoneInv(s) && Can(s, x)
    ensures DoneInv(Do(s, x))
  {
    match x {
      case ReadInput(_) => ReadKept(s, x);
      case ReadOutput(_) => ReadKept(s, x);
      case See(_, _) =>
      case WriteReturns(_) =>
      case ConnStep(_) =>
      case _ => HandlerDoneKept(s, x);
    }
  }

  lemma ReadKept(s: Session, x: Act)
    requires DoneInv(s) && Can(s, x) && (x.ReadInput? || x.ReadOutput?)
    ensures DoneInv(Do(s, x))
  {
  }

  lemma HandlerDoneKept(s: Session, x: Act)
    requires WaitInv(s) && DoneInv(s) && Can(s, x)
    requires x.AddOne? || x.StartOne? || x.WaitOver? || x.Exit? || x.SetFlag? || x.CloseConn? || x.WgDone?
    ensures DoneInv(Do(s, x))
  {
  }

  function NameOf(t: S.Tid): Name {
    if t == 0 then Ping else if t == 1 then Input else if t == 2 then Output else Resize
  }

  /** The goroutine whose write a connection step belongs to is inside that write. */
  lemma StepperIsSending(s: Session, c: S.Step)
    requires ConnInv(s) && WriterStep(c) && S.Enabled(s.conn, c)
    ensures s.at.Of(NameOf(c.t)).Sending? && Tid(NameOf(c.t)) == c.t
  {
    assert c.t in s.conn.calls && !s.conn.calls[c.t].Returned?;
    assert Tid(NameOf(c.t)) == c.t;
  }

  /** Once the handler has stopped waiting, no goroutine is left inside a write. */
  lemma NobodySends(s: Session)
    requires WaitInv(s) && !s.main.Starting?
    ensures forall g: Name :: s.at.Of(g).Unborn? || s.at.Of(g).Gone?
  {
    assert Live(s) == 0;
  }

  lemma ConnStepKept(s: Session, c: S.Step)
    requires Inv(s) && WriterStep(c) && S.Enabled(s.conn, c)
    ensures ConnInv(s.(conn := S.Apply(s.conn, c)))
  {
    S.InvKept(s.conn, c);
    StepperIsSending(s, c);
    if s.conn.closed {
      NobodySends(s);
    }
  }

  lemma EnterKept(s: Session, g: Name)
    requires ConnInv(s) && CanEnter(s, g)
    ensures ConnInv(StartWrite(s, g))
  {
    S.InvKept(s.conn, S.Enter(Tid(g)));
  }

  lemma ConnKept(s: Session, x: Act)
    requires Inv(s) && Can(s, x)
    ensures ConnInv(Do(s, x))
  {
    match x {
      case ConnStep(c) => ConnStepKept(s, c);
      case SetFlag => S.InvKept(s.conn, S.SetClosed);
      case CloseConn => S.InvKept(s.conn, S.CloseRaw);
      case See(g, woken) =>
        if woken && g != Input {
          EnterKept(s, g);
        }
      case ReadInput(ok) =>
        if ok {
          EnterKept(s, Input);
        }
      case _ =>
    }
  }

  predicate NothingStarted(s: Session) {
    s.at == Places(Unborn, Unborn, Unborn, Unborn) && s.main == Starting(0, false) && s.wg == 0
  }

  predicate AtBeginning(s: Session) {
    NothingStarted(s) && !s.done && s.closes == 0 && !s.exited && s.inputAfterDone == 0 && s.conn == S.Fresh()
  }

  lemma BeginWait(s: Session)
    requires NothingStarted(s)
    ensures WaitInv(s)
  {
  }

  lemma BeginDone(s: Session)
    requires AtBeginning(s)
    ensures DoneInv(s) && ConnInv(s)
  {
  }

  lemma BeginInv(s: Session)
    requires AtBeginning(s)
    ensures Inv(s)
  {
    BeginWait(s);
    BeginDone(s);
  }

  lemma {:induction false} InvAlways(pings: bool, acts: seq<Act>, s: Session)
    requires Play(pings, acts) == Some(s)
    ensures Inv(s)
  {
    if acts == [] {
      BeginInv(s);
    } else {
      var mid := Play(pings, acts[..|acts| - 1]).value;
      InvAlways(pings, acts[..|acts| - 1], mid);
      InvKept(mid, acts[|acts| - 1]);
    }
  }

  // ---------- who leaves ----------

  predicate HasLeft(s: Session, g: Name) {
    s.at.Of(g).Leaving? || s.at.Of(g).Gone?
  }

  /** The reasons for goroutine `g` to return: `done` or its channel closed, a read that ended, a write that failed. */
  predicate GivesUp(s: Session, x: Act, g: Name)
    requires Can(s, x)
  {
    match x
    case See(h, woken) => h == g && !woken
    case ReadInput(ok) => g == Input && !ok
    case ReadOutput(stop) => g == Output && stop
    case WriteReturns(h) => h == g && !s.conn.calls[Tid(g)].ok
    case _ => false
  }

  predicate GaveUp(pings: bool, acts: seq<Act>, g: Name) {
    if acts == [] then false
    else
      var before, x := acts[..|acts| - 1], acts[|acts| - 1];
      GaveUp(pings, before, g) ||
      match Play(pings, before)
      case None => false
      case Some(mid) => Can(mid, x) && GivesUp(mid, x, g)
  }

  /** The goroutine whose place a step changes. */
  function Mover(s: Session, x: Act): Option<Name> {
    match x
    case StartOne => if s.main.Starting? then Some(Starter(s.pings, s.main.next)) else None
    case See(g, _) => Some(g)
    case ReadInput(_) => Some(Input)
    case ReadOutput(_) => Some(Output)
    case WriteReturns(g) => Some(g)
    case WgDone(g) => Some(g)
    case _ => None
  }

  lemma NobodyMoves(s: Session, x: Act)
    requires Can(s, x) && Mover(s, x).None?
    ensures Do(s, x).at == s.at
  {
  }

  lemma OneMoves(s: Session, x: Act, h: Name)
    requires Can(s, x) && Mover(s, x) == Some(h)
    ensures Do(s, x).at == s.at || exists p: Place :: Do(s, x).at == s.at.With(h, p)
  {
  }

  lemma OthersStay(s: Session, x: Act, g: Name)
    requires Can(s, x) && Mover(s, x) != Some(g)
    ensures Do(s, x).at.Of(g) == s.at.Of(g) && !GivesUp(s, x, g)
  {
    match Mover(s, x) {
      case None => NobodyMoves(s, x);
      case Some(h) => OneMoves(s, x, h);
    }
  }

  lemma MoverLeaves(s: Session, x: Act, g: Name)
    requires Can(s, x) && Mover(s, x) == Some(g) && !x.StartOne?
    ensures HasLeft(Do(s, x), g) <==> HasLeft(s, g) || GivesUp(s, x, g)
  {
  }

  lemma LeavesStep(s: Session, x: Act, g: Name)
    requires Can(s, x) && WaitInv(s)
    ensures HasLeft(Do(s, x), g) <==> HasLeft(s, g) || GivesUp(s, x, g)
  {
    if Mover(s, x) != Some(g) {
      OthersStay(s, x, g);
    } else if x.StartOne? {
      assert s.at.Of(g).Unborn?;
    } else {
      MoverLeaves(s, x, g);
    }
  }

  /** A goroutine has returned exactly when it had a reason to: no other step ends it, and it never resumes. */
  lemma {:induction false} LeavesIffGaveUp(pings: bool, acts: seq<Act>, s: Session, g: Name)
    requires Play(pings, acts) == Some(s)
    ensures HasLeft(s, g) <==> GaveUp(pings, acts, g)
  {
    if acts == [] {
      assert s.at == Places(Unborn, Unborn, Unborn, Unborn);
    } else {
      var mid := Play(pings, acts[..|acts| - 1]).value;
      LeavesIffGaveUp(pings, acts[..|acts| - 1], mid, g);
      InvAlways(pings, acts[..|acts| - 1], mid);
      LeavesStep(mid, acts[|acts| - 1], g);
    }
  }

  // ---------- the theorems ----------

  /**
   The session's lifecycle over every interleaving: `done` is closed at most once, the WaitGroup counts the live
   goroutines (and the one about to start), the session exits only with `done` closed and everyone gone, and the
   input goroutine forwards at most one more chunk once `done` is closed.
   */
  lemma Lifecycle(pings: bool, acts: seq<Act>, s: Session)
    requires Play(pings, acts) == Some(s)
    ensures s.closes <= 1 && (s.done <==> s.closes == 1)
    ensures s.done <==> HasLeft(s, Output)
    ensures s.wg == Live(s) + (if s.main.Starting? && s.main.added then 1 else 0)
    ensures s.exited ==> s.done && Live(s) == 0
    ensures s.inputAfterDone <= 1
  {
    InvAlways(pings, acts, s);
  }

  /**
   What the lifecycle adds to the connection's own guarantee: the connection is closed only when no writer is inside
   it, so here no underlying write at all starts after the flag is set.
   */
  lemma NoWriteAfterClose(pings: bool, acts: seq<Act>, s: Session)
    requires Play(pings, acts) == Some(s)
    ensures s.conn.lateWrites == 0
    ensures s.conn.closed ==> s.exited && forall t <- s.conn.calls :: s.conn.calls[t].Returned?
    ensures s.main.Finished? <==> s.conn.rawClosed
    ensures forall t, u | t in s.conn.calls && u in s.conn.calls ::
      s.conn.calls[t].Writing? && s.conn.calls[u].Writing? ==> t == u
  {
    InvAlways(pings, acts, s);
    if s.conn.closed {
      NobodySends(s);
      forall t <- s.conn.calls ensures s.conn.calls[t].Returned? {
        assert Tid(NameOf(t)) == t && !s.at.Of(NameOf(t)).Sending?;
      }
    }
  }

  // ---------- late input ----------

  lemma Onward(pings: bool, acts: seq<Act>, s: Session, x: Act)
    requires Play(pings, acts) == Some(s) && Can(s, x)
    ensures Play(pings, acts + [x]) == Some(Do(s, x))
  {
    assert (acts + [x])[..|acts|] == acts;
  }

  ghost predicate LateInputCanCome(pings: bool, acts: seq<Act>) {
    exists more: seq<Act> ::
      Play(pings, acts + more).Some? && Play(pings, acts + more).value.inputAfterDone > 0
  }

  lemma NoLateStep(s: Session, x: Act)
    requires Can(s, x) && s.done && !s.at.input.Blocked?
    ensures var t := Do(s, x); t.done && !t.at.input.Blocked? && t.inputAfterDone == s.inputAfterDone
  {
    if Mover(s, x) != Some(Input) {
      OthersStay(s, x, Input);
    }
  }

  lemma {:induction false} NoLateInput(pings: bool, acts: seq<Act>, s: Session, more: seq<Act>, t: Session)
    requires Play(pings, acts) == Some(s) && s.done && !s.at.input.Blocked?
    requires Play(pings, acts + more) == Some(t)
    ensures t.done && !t.at.input.Blocked? && t.inputAfterDone == s.inputAfterDone
  {
    if more == [] {
      assert acts + more == acts;
    } else {
      var more0 := more[..|more| - 1];
      assert (acts + more)[..|acts + more| - 1] == acts + more0;
      var mid := Play(pings, acts + more0).value;
      NoLateInput(pings, acts, s, more0, mid);
      NoLateStep(mid, more[|more| - 1]);
    }
  }

  lemma BlockedCanEnter(s: Session)
    requires ConnInv(s) && s.at.input.Blocked?
    ensures Can(s, ReadInput(true))
  {
    assert !s.at.Of(Input).Sending?;
  }

  /**
   Once `done` is closed, with no input forwarded since: one more chunk can still be forwarded exactly when the input
   goroutine is inside its read.
   */
  lemma LateInputIff(pings: bool, acts: seq<Act>, s: Session)
    requires Play(pings, acts) == Some(s) && s.done && s.inputAfterDone == 0
    ensures LateInputCanCome(pings, acts) <==> s.at.input.Blocked?
  {
    InvAlways(pings, acts, s);
    if s.at.input.Blocked? {
      BlockedCanEnter(s);
      Onward(pings, acts, s, ReadInput(true));
    } else {
      forall more: seq<Act> | Play(pings, acts + more).Some?
        ensures Play(pings, acts + more).value.inputAfterDone == 0
      {
        NoLateInput(pings, acts, s, more, Play(pings, acts + more).value);
      }
    }
  }

  /** It does happen: the output ends while the input goroutine waits for the user. */
  lemma LateInputHappens()
    ensures exists acts: seq<Act>, s: Session :: Play(false, acts) == Some(s) && s.inputAfterDone == 1
  {
    var acts, s := InputStarted();
    acts, s := Then(acts, s, AddOne);
    acts, s := Then(acts, s, StartOne);
    acts, s := Then(acts, s, See(Input, true));
    acts, s := Then(acts, s, ReadOutput(true));
    acts, s := Then(acts, s, ReadInput(true));
  }

  lemma InputStarted() returns (acts: seq<Act>, s: Session)
    ensures Play(false, acts) == Some(s) && s.main == Starting(1, false) && !s.pings && !s.done
    ensures s.at == Places(Unborn, AtSelect, Unborn, Unborn) && s.conn == S.Fresh() && s.inputAfterDone == 0
  {
    acts, s := [], Begin(false);
    acts, s := Then(acts, s, AddOne);
    acts, s := Then(acts, s, StartOne);
  }

  lemma Then(acts: seq<Act>, s: Session, x: Act) returns (more: seq<Act>, t: Session)
    requires Play(false, acts) == Some(s) && Can(s, x)
    ensures t == Do(s, x) && Play(false, more) == Some(t)
  {
    Onward(false, acts, s, x);
    more, t := acts + [x], Do(s, x);
  }
}
