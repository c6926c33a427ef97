/**
 The PTY bridge as a step system.  One action is one critical section, channel operation or system call of
 the program, so a sequence of actions is one interleaving of the reader goroutine, the goroutine that waits
 for the process, any number of HTTP requests, any number of `/init` callers and any number of WebSocket
 clients.  The last four fields of the state are history: nothing the bridge does depends on them.
 */
module Bridge {
  import opened Bytes
  import opened Wrappers
  import opened OutputBuffers

  type Id = nat

  datatype Frame = DataFrame(bytes: seq<Byte>) | ExitFrame(code: Int64) | PongFrame

  /** One attempted frame write. A failed write is only logged by the bridge, so the client stays registered. */
  datatype Send = Send(frame: Frame, ok: bool)

  /** A WebSocket connection: `first` is the first chunk it is due, `last` the chunk it stopped before once removed. */
  datatype Client = Client(live: bool, first: int, last: int, sends: seq<Send>)

  datatype Once = NotRun | InProgress(owner: Id) | Finished
  datatype InitResult = Ready | InitError | Panicked

  datatype Reader =
    | ReaderUnborn
    | AtSelect
    | InRead
    | Holding(chunk: seq<Byte>)
    | Buffered(chunk: seq<Byte>)
    | Sending(chunk: seq<Byte>, todo: set<Id>)
    | ReaderGone

  datatype Waiter =
    | WaiterUnborn
    | Waiting
    | Reaped(code: Int64)
    | Marked(code: Int64)
    | DoneClosed(code: Int64)
    | Announcing(code: Int64, todo: set<Id>)
    | Announced(code: Int64)

  datatype Kind = ReadKind | WriteKind | WriteReadKind

  datatype Reply = Rejected | Accepted | Lines(data: seq<Byte>, exit: Option<Int64>)

  datatype Request =
    | Checked(kind: Kind, input: seq<Byte>)
    | Draining
    | Flagged(running: bool, code: Int64)
    | Answered(reply: Reply)

  /** What left the buffer: drained by a request, or cut off by the 1 MiB cap. */
  datatype Segment = Drained(owner: Id, bytes: seq<Byte>, exit: Option<Int64>) | Evicted(bytes: seq<Byte>)

  datatype Input = Input(owner: Id, bytes: seq<Byte>)

  datatype State = State(
    once: Once,
    inits: map<Id, InitResult>,
    up: bool,
    children: nat,
    running: bool,
    exitCode: Int64,
    done: bool,
    halted: bool,
    reader: Reader,
    waiter: Waiter,
    buffer: seq<Byte>,
    clients: map<Id, Client>,
    requests: map<Id, Request>,
    ptyIn: seq<Input>,
    chunks: seq<seq<Byte>>,
    segments: seq<Segment>,
    stopMark: nat,
    doneMark: nat)

  datatype Action =
    | CallOnce(caller: Id)
    | StartChild(started: bool)
    | ReaderSelect
    | ReaderRead(chunk: seq<Byte>)
    | ReaderError
    | ReaderBuffer
    | ReaderLock
    | ReaderSend(to: Id, ok: bool)
    | ReaderUnlock
    | Reap(code: Int64)
    | Mark
    | CloseDone
    | AnnounceLock
    | AnnounceSend(to: Id, ok: bool)
    | AnnounceUnlock
    | Halt
    | AddClient(conn: Id)
    | RemoveClient(conn: Id)
    | SendPong(conn: Id, ok: bool)
    | ClientInput(conn: Id, bytes: seq<Byte>)
    | Arrive(req: Id, kind: Kind, input: seq<Byte>)
    | RejectBody(req: Id)
    | PtyWrite(req: Id, count: nat)
    | Snapshot(req: Id)
    | Drain(req: Id)

  function Init(): State {
    State(NotRun, map[], false, 0, false, 0, false, false, ReaderUnborn, WaiterUnborn, [], map[], map[], [],
          [], [], 0, 0)
  }

  /** The session after a first, successful initialisation. */
  function Started(): State {
    Apply(Apply(Init(), CallOnce(0)), StartChild(true))
  }

  function Live(s: State): set<Id> {
    set c <- s.clients | s.clients[c].live
  }

  /** No broadcast holds the read lock, so the client set may be locked for writing. */
  predicate ClientsUnlocked(s: State) {
    !s.reader.Sending? && !s.waiter.Announcing?
  }

  predicate Enabled(s: State, a: Action) {
    !s.halted &&
    match a
    case CallOnce(caller) => !s.once.InProgress? && caller !in s.inits
    case StartChild(_) => s.once.InProgress?
    case ReaderSelect => s.reader.AtSelect?
    case ReaderRead(chunk) => s.reader.InRead? && |chunk| <= READ_SIZE
    case ReaderError => s.reader.InRead?
    case ReaderBuffer => s.reader.Holding?
    case ReaderLock => s.reader.Buffered?
    case ReaderSend(to, _) => s.reader.Sending? && to in s.reader.todo && to in s.clients
    case ReaderUnlock => s.reader.Sending? && s.reader.todo == {}
    case Reap(_) => s.waiter.Waiting?
    case Mark => s.waiter.Reaped?
    case CloseDone => s.waiter.Marked?
    case AnnounceLock => s.waiter.DoneClosed?
    case AnnounceSend(to, _) => s.waiter.Announcing? && to in s.waiter.todo && to in s.clients
    case AnnounceUnlock => s.waiter.Announcing? && s.waiter.todo == {}
    case Halt => s.waiter.Announced?
    case AddClient(conn) => conn in s.inits && s.inits[conn].Ready? && conn !in s.clients && ClientsUnlocked(s)
    case RemoveClient(conn) => conn in s.clients && s.clients[conn].live && ClientsUnlocked(s)
    case SendPong(conn, _) => conn in s.clients && s.clients[conn].live
    case ClientInput(conn, _) => conn in s.clients && s.clients[conn].live
    case Arrive(req, _, _) => req !in s.requests
    case RejectBody(req) => req in s.requests && s.requests[req].Checked?
    case PtyWrite(req, count) =>
      req in s.requests && s.requests[req].Checked? && count <= |s.requests[req].input|
    case Snapshot(req) => req in s.requests && s.requests[req].Draining?
    case Drain(req) => req in s.requests && s.requests[req].Flagged?
  }

  /** The chunk a client is due next: the chunk in the reader's hands is buffered before it is broadcast. */
  function NextChunk(s: State, c: Id): int
    requires c in s.clients
  {
    var cl := s.clients[c];
    if !cl.live then cl.last
    else if s.reader.Buffered? || (s.reader.Sending? && c in s.reader.todo) then |s.chunks| - 1
    else |s.chunks|
  }

  function WithSend(s: State, c: Id, frame: Frame, ok: bool): State
    requires c in s.clients
  {
    var cl := s.clients[c];
    s.(clients := s.clients[c := cl.(sends := cl.sends + [Send(frame, ok)])])
  }

  function Apply(s: State, a: Action): State
    requires Enabled(s, a)
  {
    match a
    case CallOnce(caller) =>
      if s.once.NotRun? then s.(once := InProgress(caller))
      else s.(inits := s.inits[caller := if s.up then Ready else Panicked])
    case StartChild(started) =>
      var s1 := s.(once := Finished, inits := s.inits[s.once.owner := if started then Ready else InitError]);
      if started
      then s1.(up := true, children := s.children + 1, running := true, reader := AtSelect, waiter := Waiting)
      else s1
    case ReaderSelect => s.(reader := if s.done then ReaderGone else InRead)
    case ReaderRead(chunk) => s.(reader := if chunk == [] then AtSelect else Holding(chunk))
    case ReaderError => s.(reader := ReaderGone)
    case ReaderBuffer => BufferChunk(s, s.reader.chunk).(reader := Buffered(s.reader.chunk))
    case ReaderLock => s.(reader := Sending(s.reader.chunk, Live(s)))
    case ReaderSend(to, ok) =>
      WithSend(s, to, DataFrame(s.reader.chunk), ok).(reader := Sending(s.reader.chunk, s.reader.todo - {to}))
    case ReaderUnlock => s.(reader := AtSelect)
    case Reap(code) => s.(waiter := Reaped(code))
    case Mark =>
      s.(running := false, exitCode := s.waiter.code, waiter := Marked(s.waiter.code),
         stopMark := |Flatten(s.chunks)|)
    case CloseDone => s.(done := true, waiter := DoneClosed(s.waiter.code), doneMark := |s.chunks|)
    case AnnounceLock => s.(waiter := Announcing(s.waiter.code, Live(s)))
    case AnnounceSend(to, ok) =>
      WithSend(s, to, ExitFrame(s.waiter.code), ok).(waiter := Announcing(s.waiter.code, s.waiter.todo - {to}))
    case AnnounceUnlock => s.(waiter := Announced(s.waiter.code))
    case Halt => s.(halted := true)
    case AddClient(conn) =>
      var first := if s.reader.Buffered? then |s.chunks| - 1 else |s.chunks|;
      s.(clients := s.clients[conn := Client(true, first, first, [])])
    case RemoveClient(conn) =>
      s.(clients := s.clients[conn := s.clients[conn].(live := false, last := NextChunk(s, conn))])
    case SendPong(conn, ok) => WithSend(s, conn, PongFrame, ok)
    case ClientInput(conn, bytes) => s.(ptyIn := s.ptyIn + [Input(conn, bytes)])
    case Arrive(req, kind, input) =>
      s.(requests := s.requests[req :=
        if !s.up || (!kind.ReadKind? && !s.running) then Answered(Rejected)
        else if kind.ReadKind? then Draining
        else Checked(kind, input)])
    case RejectBody(req) => s.(requests := s.requests[req := Answered(Rejected)])
    case PtyWrite(req, count) =>
      var Checked(kind, input) := s.requests[req];
      s.(ptyIn := s.ptyIn + [Input(req, input[..count])],
         requests := s.requests[req :=
           if count < |input| then Answered(Rejected)
           else if kind.WriteReadKind? then Draining
           else Answered(Accepted)])
    case Snapshot(req) => s.(requests := s.requests[req := Flagged(s.running, s.exitCode)])
    case Drain(req) =>
      var exit := if s.requests[req].running then None else Some(s.requests[req].code);
      s.(buffer := [],
         segments := s.segments + [Drained(req, s.buffer, exit)],
         requests := s.requests[req := Answered(Lines(s.buffer, exit))])
  }

  /** `OutputBuffer.Write`, with the bytes the cap pushes out recorded as evicted. */
  function BufferChunk(s: State, chunk: seq<Byte>): State {
    var all := s.buffer + chunk;
    var kept := Tail(all, CAP);
    s.(buffer := kept,
       chunks := s.chunks + [chunk],
       segments := if |kept| < |all| then s.segments + [Evicted(all[..|all| - |kept|])] else s.segments)
  }

  /** The state after a sequence of actions, if each of them was enabled in its turn. */
  function Exec(s: State, acts: seq<Action>): Option<State>
  {
    if acts == [] then Some(s)
    else
      match Exec(s, acts[..|acts| - 1])
      case None => None
      case Some(mid) =>
        var a := acts[|acts| - 1];
        if Enabled(mid, a) then Some(Apply(mid, a)) else None
  }

  ghost predicate Reachable(s: State) {
    exists acts: seq<Action> :: Exec(Init(), acts) == Some(s)
  }

  /** `t` lies on some run that passes through `s`. */
  ghost predicate Leads(s: State, t: State) {
    exists acts: seq<Action> :: Exec(s, acts) == Some(t)
  }
}
