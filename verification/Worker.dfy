/**
 The worker's stream to the bridge.  JavaScript runs one handler at a time and changes hands only at an `await`, so
 one action is the code between two awaits.  Close events come whenever the platform sends them, for whatever
 socket, and any number of connect calls may be waiting for their response.
 */
module Workers {
  import opened Wrappers

  type Id = nat

  /** The manager's two fields: `containerWs` and `containerWsReady`. */
  datatype Stream = Stream(ws: Option<Id>, ready: bool)

  /** A socket to the bridge: `Silent` before its listeners are on, `Closing` once the worker has closed it. */
  datatype Phase = Silent | Listening | Closing | Closed

  datatype Frame = InitFrame | ClientFrame(msg: Id)

  datatype Socket = Socket(phase: Phase, sent: seq<Frame>)

  datatype Kind = Data | Resize

  /** What became of a client's message. */
  datatype Effect = Streamed(socket: Id) | Written | WrittenAndRead

  datatype Handled = Handled(msg: Id, kind: Kind, effect: Effect)

  datatype State = State(
    stream: Stream,
    sockets: map<Id, Socket>,
    connecting: set<Id>,
    waiting: map<Id, Kind>,
    log: seq<Handled>)

  /** How a connect call ends once its fetch is answered. */
  datatype Answer =
    | FetchThrew
    | NoWebSocket
    | AcceptThrew
    | InitThrew(socket: Id)
    | Connected(socket: Id)

  datatype Action =
    | Connect(call: Id)
    | ConnectUnlessReady(call: Id)
    | Resume(call: Id, answer: Answer)
    | CloseEvent(socket: Id)
    | CloseStream
    | Receive(msg: Id, kind: Kind)
    | Dispatch(msg: Id, sendOk: bool)

  function Start(): State {
    State(NO_STREAM, map[], {}, map[], [])
  }

  const NO_STREAM: Stream := Stream(None, false)

  // ---------- the segments between awaits ----------

  /** `closeContainerWs` */
  function Shut(st: Stream): Stream {
    if st.ws.Some? then NO_STREAM else st
  }

  /** The end of `connectContainerWebSocket`, from the answered fetch on. */
  function AfterAnswer(st: Stream, answer: Answer): Stream {
    match answer
    case NoWebSocket => st
    case Connected(k) => Stream(Some(k), true)
    case _ => NO_STREAM
  }

  /** `sendToContainerWs`: the stream if it is there, `/write` if it is not or the send throws. */
  function SendOn(st: Stream, sendOk: bool): (Stream, Effect) {
    if st.ws.Some? && st.ready then
      if sendOk then (st, Streamed(st.ws.value)) else (st.(ready := false), Written)
    else (st, Written)
  }

  /** `webSocketMessage` for keystrokes and window changes. */
  function Route(st: Stream, kind: Kind, sendOk: bool): (Stream, Effect) {
    if kind.Resize? || (st.ready && st.ws.Some?) then SendOn(st, sendOk) else (st, WrittenAndRead)
  }

  function WithPhase(sockets: map<Id, Socket>, k: Id, phase: Phase): map<Id, Socket> {
    if k in sockets then sockets[k := sockets[k].(phase := phase)] else sockets
  }

  function ShutState(s: State): State {
    s.(stream := Shut(s.stream),
       sockets := if s.stream.ws.Some? then WithPhase(s.sockets, s.stream.ws.value, Closing) else s.sockets)
  }

  predicate Enabled(s: State, a: Action) {
    match a
    case Connect(call) => call !in s.connecting
    case ConnectUnlessReady(call) => call !in s.connecting
    case Resume(call, answer) =>
      call in s.connecting && (answer.InitThrew? || answer.Connected? ==> answer.socket !in s.sockets)
    case CloseEvent(k) => k in s.sockets && (s.sockets[k].phase.Listening? || s.sockets[k].phase.Closing?)
    case CloseStream => true
    case Receive(m, _) => m !in s.waiting && forall i | 0 <= i < |s.log| :: s.log[i].msg != m
    case Dispatch(m, _) => m in s.waiting
  }

  function Apply(s: State, a: Action): State
    requires Enabled(s, a)
  {
    match a
    case Connect(call) => ShutState(s).(connecting := s.connecting + {call})
    case ConnectUnlessReady(call) => if s.stream.ready then s else ShutState(s).(connecting := s.connecting + {call})
    case Resume(call, answer) =>
      s.(stream := AfterAnswer(s.stream, answer), connecting := s.connecting - {call},
         sockets := match answer
                    case InitThrew(k) => s.sockets[k := Socket(Silent, [])]
                    case Connected(k) => s.sockets[k := Socket(Listening, [InitFrame])]
                    case _ => s.sockets)
    case CloseEvent(k) => s.(stream := NO_STREAM, sockets := WithPhase(s.sockets, k, Closed))
    case CloseStream => ShutState(s)
    case Receive(m, kind) => s.(waiting := s.waiting[m := kind])
    case Dispatch(m, sendOk) =>
      var (stream, effect) := Route(s.stream, s.waiting[m], sendOk);
      s.(stream := stream, waiting := s.waiting - {m},
         sockets := if effect.Streamed? then WithFrame(s.sockets, effect.socket, ClientFrame(m)) else s.sockets,
         log := s.log + [Handled(m, s.waiting[m], effect)])
  }

  function WithFrame(sockets: map<Id, Socket>, k: Id, frame: Frame): map<Id, Socket> {
    if k in sockets then sockets[k := sockets[k].(sent := sockets[k].sent + [frame])] else sockets
  }

  function Exec(s: State, acts: seq<Action>): Option<State> {
    if acts == [] then Some(s)
    else
      match Exec(s, acts[..|acts| - 1])
      case None => None
      case Some(mid) => if Enabled(mid, acts[|acts| - 1]) then Some(Apply(mid, acts[|acts| - 1])) else None
  }

  ghost predicate Reachable(s: State) {
    exists acts: seq<Action> :: Exec(Start(), acts) == Some(s)
  }

  // ---------- what every step keeps ----------

  /** Ready means there is a stream, and the stream is a socket whose listeners are on. */
  predicate StreamInv(s: State) {
    && (s.stream.ready ==> s.stream.ws.Some?)
    && (s.stream.ws.Some? ==> s.stream.ws.value in s.sockets && s.sockets[s.stream.ws.value].phase.Listening?)
  }

  /** The client messages that were streamed to socket `k`, in the order they were handled. */
  function StreamedTo(log: seq<Handled>, k: Id): seq<Frame> {
    if log == [] then []
    else
      var last := log[|log| - 1];
      StreamedTo(log[..|log| - 1], k) + if last.effect == Streamed(k) then [ClientFrame(last.msg)] else []
  }

  /** A socket was sent init first, then exactly the messages that were streamed to it. */
  predicate SentInv(s: State, k: Id)
    requires k in s.sockets
  {
    if s.sockets[k].phase.Silent? then s.sockets[k].sent == [] == StreamedTo(s.log, k)
    else s.sockets[k].sent == [InitFrame] + StreamedTo(s.log, k)
  }

  predicate SocketsInv(s: State) {
    && (forall k <- s.sockets :: SentInv(s, k))
    && (forall i | 0 <= i < |s.log| :: s.log[i].effect.Streamed? ==> s.log[i].effect.socket in s.sockets)
  }

  /** No message is handled twice, or handled and still waiting. */
  predicate LogInv(s: State) {
    && (forall i | 0 <= i < |s.log| :: s.log[i].msg !in s.waiting)
    && (forall i, j | 0 <= i < j < |s.log| :: s.log[i].msg != s.log[j].msg)
  }

  predicate Inv(s: State) {
    StreamInv(s) && SocketsInv(s) && LogInv(s)
  }

  lemma {:induction false} StreamedToNone(log: seq<Handled>, k: Id)
    requires forall i | 0 <= i < |log| :: log[i].effect != Streamed(k)
    ensures StreamedTo(log, k) == []
  {
    if log != [] {
      StreamedToNone(log[..|log| - 1], k);
    }
  }

  lemma StreamedSnoc(log: seq<Handled>, x: Handled, k: Id)
    ensures StreamedTo(log + [x], k)
         == StreamedTo(log, k) + if x.effect == Streamed(k) then [ClientFrame(x.msg)] else []
  {
    assert (log + [x])[..|log|] == log;
  }

  lemma StreamKept(s: State, a: Action)
    requires Enabled(s, a) && StreamInv(s)
    ensures StreamInv(Apply(s, a))
  {
  }

  lemma LogKept(s: State, a: Action)
    requires Enabled(s, a) && LogInv(s)
    ensures LogInv(Apply(s, a))
  {
  }

  lemma SocketsKept(s: State, a: Action)
    requires Enabled(s, a) && StreamInv(s) && SocketsInv(s)
    ensures SocketsInv(Apply(s, a))
  {
    var t := Apply(s, a);
    forall k <- t.sockets ensures SentInv(t, k) {
      if k in s.sockets {
        assert SentInv(s, k);
        if a.Dispatch? {
          DispatchSends(s, a.msg, a.sendOk, k);
        } else {
          SocketAlone(s, a, k);
        }
      } else {
        StreamedToNone(s.log, k);
        NewSocket(s, a, k);
      }
    }
  }

  lemma SocketAlone(s: State, a: Action, k: Id)
    requires Enabled(s, a) && StreamInv(s) && k in s.sockets && !a.Dispatch?
    ensures var t := Apply(s, a);
      && t.log == s.log && k in t.sockets && t.sockets[k].sent == s.sockets[k].sent
      && (t.sockets[k].phase.Silent? <==> s.sockets[k].phase.Silent?)
  {
  }

  lemma NewSocket(s: State, a: Action, k: Id)
    requires Enabled(s, a) && k !in s.sockets && k in Apply(s, a).sockets
    ensures Apply(s, a).log == s.log
    ensures Apply(s, a).sockets[k] in {Socket(Silent, []), Socket(Listening, [InitFrame])}
  {
  }

  lemma DispatchSends(s: State, m: Id, sendOk: bool, k: Id)
    requires Enabled(s, Dispatch(m, sendOk)) && StreamInv(s) && k in s.sockets && SentInv(s, k)
    ensures k in Apply(s, Dispatch(m, sendOk)).sockets && SentInv(Apply(s, Dispatch(m, sendOk)), k)
  {
    var t := Apply(s, Dispatch(m, sendOk));
    StreamedSnoc(s.log, t.log[|s.log|], k);
  }

  lemma InvKept(s: State, a: Action)
    requires Enabled(s, a) && Inv(s)
    ensures Inv(Apply(s, a))
  {
    StreamKept(s, a);
    SocketsKept(s, a);
    LogKept(s, a);
  }

  lemma {:induction false} InvAlong(acts: seq<Action>, s: State)
    requires Exec(Start(), acts) == Some(s)
    ensures Inv(s)
  {
    if acts != [] {
      var mid := Exec(Start(), acts[..|acts| - 1]).value;
      InvAlong(acts[..|acts| - 1], mid);
      InvKept(mid, acts[|acts| - 1]);
    }
  }

  // ---------- the theorems ----------

  /** At every yield of every interleaving: ready means a non-null stream whose listeners are on. */
  lemma ReadyHasStream(s: State)
    requires Reachable(s)
    ensures s.stream.ready ==> s.stream.ws.Some?
    ensures s.stream.ws.Some? ==> s.stream.ws.value in s.sockets && s.sockets[s.stream.ws.value].phase.Listening?
  {
    var acts :| Exec(Start(), acts) == Some(s);
    InvAlong(acts, s);
  }

  /**
   Every client message is handled once, and what was streamed is what the sockets carried: each socket saw init,
   then exactly the messages that were streamed to it, in the order they were handled.
   */
  lemma EachMessageOnce(s: State)
    requires Reachable(s)
    ensures forall i, j | 0 <= i < j < |s.log| :: s.log[i].msg != s.log[j].msg
    ensures forall i | 0 <= i < |s.log| :: s.log[i].msg !in s.waiting
    ensures forall k <- s.sockets :: !s.sockets[k].phase.Silent? ==>
      s.sockets[k].sent == [InitFrame] + StreamedTo(s.log, k)
    ensures forall k <- s.sockets :: s.sockets[k].phase.Silent? ==> s.sockets[k].sent == []
  {
    var acts :| Exec(Start(), acts) == Some(s);
    InvAlong(acts, s);
    forall k <- s.sockets ensures s.sockets[k].phase.Silent? ==> s.sockets[k].sent == [] {
      assert SentInv(s, k);
    }
    forall k <- s.sockets ensures !s.sockets[k].phase.Silent? ==>
      s.sockets[k].sent == [InitFrame] + StreamedTo(s.log, k)
    {
      assert SentInv(s, k);
    }
  }

  /** The message reached the worker, as one of this kind, at some step of the run. */
  predicate Received(acts: seq<Action>, m: Id, kind: Kind) {
    Receive(m, kind) in acts
  }

  predicate Waits(s: State, m: Id, kind: Kind) {
    m in s.waiting && s.waiting[m] == kind
  }

  predicate InLog(s: State, m: Id, kind: Kind) {
    exists i | 0 <= i < |s.log| :: s.log[i].msg == m && s.log[i].kind == kind
  }

  /** No message gets lost inside the worker: each one received is waiting or handled as what it is, and no other is. */
  lemma {:induction false} ReceivedIsHandledOrWaiting(acts: seq<Action>, s: State, m: Id, kind: Kind)
    requires Exec(Start(), acts) == Some(s)
    ensures Received(acts, m, kind) <==> Waits(s, m, kind) || InLog(s, m, kind)
  {
    if acts != [] {
      var before, a := acts[..|acts| - 1], acts[|acts| - 1];
      var mid := Exec(Start(), before).value;
      ReceivedIsHandledOrWaiting(before, mid, m, kind);
      assert acts == before + [a];
      LogStep(mid, a, m, kind);
    }
  }

  lemma LogStep(s: State, a: Action, m: Id, kind: Kind)
    requires Enabled(s, a)
    ensures var t := Apply(s, a);
      Waits(t, m, kind) || InLog(t, m, kind) <==> Waits(s, m, kind) || InLog(s, m, kind) || a == Receive(m, kind)
  {
    var t := Apply(s, a);
    if a.Dispatch? {
      assert t.log[|s.log|].msg == a.msg;
      assert forall i | 0 <= i < |s.log| :: t.log[i] == s.log[i];
    }
  }

  /** Which of the three it is: `ready` and the outcome of the send decide alone, and the two checks never disagree. */
  lemma OneOfThree(s: State, m: Id, sendOk: bool)
    requires Reachable(s) && Enabled(s, Dispatch(m, sendOk))
    ensures var t := Apply(s, Dispatch(m, sendOk));
      |t.log| == |s.log| + 1 && t.log[..|s.log|] == s.log
    ensures var x := Apply(s, Dispatch(m, sendOk)).log[|s.log|];
      && x.msg == m && x.kind == s.waiting[m]
      && (x.effect.Streamed? <==> s.stream.ready && sendOk)
      && (x.effect.Streamed? ==> s.stream.ws == Some(x.effect.socket))
      && (x.effect.WrittenAndRead? <==> x.kind.Data? && !s.stream.ready)
      && (x.effect.Written? <==> if x.kind.Data? then s.stream.ready && !sendOk else !(s.stream.ready && sendOk))
  {
    ReadyHasStream(s);
  }

  /** The steps that take a ready stream away: a close, a new connect call, one that ends badly, a send that threw. */
  predicate DropsReady(a: Action) {
    || a.Connect? || a.CloseEvent? || a.CloseStream? || (a.Dispatch? && !a.sendOk)
    || (a.Resume? && !a.answer.NoWebSocket? && !a.answer.Connected?)
  }

  /** A ready stream stays ready in every other step, and `connectUnlessReady` is one of them. */
  lemma ReadyLostIff(s: State, a: Action)
    requires Reachable(s) && Enabled(s, a) && s.stream.ready
    ensures Apply(s, a).stream.ready <==> !DropsReady(a)
    ensures Apply(s, a).stream == s.stream <==> !DropsReady(a) && !(a.Resume? && a.answer.Connected?)
  {
    ReadyHasStream(s);
  }

  // ---------- how many streams ----------

  /** The only socket that listens is the current stream. */
  predicate SingleStream(s: State) {
    forall k <- s.sockets :: s.sockets[k].phase.Listening? ==> s.stream.ws == Some(k)
  }

  /** A connect call that ends while there is a stream, or a close event of another socket, leaves a stream behind. */
  predicate LeavesStream(s: State, a: Action) {
    match a
    case Resume(_, answer) => s.stream.ws.Some? && !answer.NoWebSocket?
    case CloseEvent(k) => s.stream.ws.Some? && s.stream.ws != Some(k)
    case _ => false
  }

  /** Exactly those steps break it. */
  lemma SingleStreamStep(s: State, a: Action)
    requires Enabled(s, a) && StreamInv(s) && SingleStream(s)
    ensures SingleStream(Apply(s, a)) <==> !LeavesStream(s, a)
  {
    var t := Apply(s, a);
    if LeavesStream(s, a) {
      var k := s.stream.ws.value;
      assert k in t.sockets && t.sockets[k].phase.Listening? && t.stream.ws != Some(k);
    } else {
      forall k <- t.sockets | t.sockets[k].phase.Listening? ensures t.stream.ws == Some(k) {
        ListeningBefore(s, a, k);
      }
    }
  }

  lemma ListeningBefore(s: State, a: Action, k: Id)
    requires Enabled(s, a) && k in Apply(s, a).sockets && Apply(s, a).sockets[k].phase.Listening?
    ensures (a.Resume? && a.answer == Connected(k)) || (k in s.sockets && s.sockets[k].phase.Listening?)
  {
  }

  /** A run in which a connect call begins only when none is waiting, and close events of old sockets come in time. */
  ghost predicate Orderly(s: State, acts: seq<Action>)
    requires Exec(s, acts).Some?
  {
    if acts == [] then true
    else
      var mid := Exec(s, acts[..|acts| - 1]).value;
      var a := acts[|acts| - 1];
      && Orderly(s, acts[..|acts| - 1])
      && (a.Connect? || a.ConnectUnlessReady? ==> mid.connecting == {})
      && (a.CloseEvent? ==> mid.stream.ws == None || mid.stream.ws == Some(a.socket))
  }

  /** While the one connect call waits there is no stream, so its end cannot leave one behind. */
  ghost predicate OneCall(s: State) {
    s.connecting == {} || (s.stream.ws.None? && exists c :: s.connecting == {c})
  }

  lemma OneCallKept(s: State, a: Action)
    requires Enabled(s, a) && OneCall(s) && (a.Connect? || a.ConnectUnlessReady? ==> s.connecting == {})
    ensures OneCall(Apply(s, a)) && (a.Resume? ==> !LeavesStream(s, a))
  {
    match a {
      case Connect(call) =>
        assert Apply(s, a).connecting == {call};
      case ConnectUnlessReady(call) =>
        assert !s.stream.ready ==> Apply(s, a).connecting == {call};
      case Resume(call, _) =>
        assert Apply(s, a).connecting == {};
      case _ =>
    }
  }

  /** Without overlapping connects and late close events there is one stream at most, and it is the current one. */
  lemma {:induction false} OrderlyRunsHaveOneStream(acts: seq<Action>, s: State)
    requires Exec(Start(), acts) == Some(s) && Orderly(Start(), acts)
    ensures SingleStream(s) && OneCall(s)
  {
    if acts != [] {
      var mid := Exec(Start(), acts[..|acts| - 1]).value;
      OrderlyRunsHaveOneStream(acts[..|acts| - 1], mid);
      InvAlong(acts[..|acts| - 1], mid);
      OneCallKept(mid, acts[|acts| - 1]);
      SingleStreamStep(mid, acts[|acts| - 1]);
    }
  }

  // ---------- and what happens otherwise ----------

  lemma Then(acts: seq<Action>, s: State, a: Action) returns (more: seq<Action>)
    requires Exec(Start(), acts) == Some(s) && Enabled(s, a)
    ensures Exec(Start(), more) == Some(Apply(s, a))
  {
    more := acts + [a];
    assert more[..|acts|] == acts;
  }

  predicate Listens(s: State, k: Id) {
    k in s.sockets && s.sockets[k].phase.Listening?
  }

  /** Two connect calls that overlap leave two sockets listening: every output frame of both reaches the clients. */
  lemma OverlapLeavesTwoStreams()
    ensures exists s: State :: Reachable(s) && Listens(s, 10) && Listens(s, 11) && s.stream == Stream(Some(11), true)
  {
    var s0 := Start();
    var acts := Then([], s0, Connect(0));
    var s1 := Apply(s0, Connect(0));
    acts := Then(acts, s1, Connect(1));
    var s2 := Apply(s1, Connect(1));
    acts := Then(acts, s2, Resume(0, Connected(10)));
    var s3 := Apply(s2, Resume(0, Connected(10)));
    acts := Then(acts, s3, Resume(1, Connected(11)));
    var s4 := Apply(s3, Resume(1, Connected(11)));
    assert Reachable(s4);
  }

  /** The close event of the socket that a reconnect replaced drops the new stream, which keeps listening. */
  lemma StaleCloseDropsStream()
    ensures exists s: State :: Reachable(s) && Listens(s, 11) && s.stream == NO_STREAM
  {
    var s0 := Start();
    var acts := Then([], s0, Connect(0));
    var s1 := Apply(s0, Connect(0));
    acts := Then(acts, s1, Resume(0, Connected(10)));
    var s2 := Apply(s1, Resume(0, Connected(10)));
    acts := Then(acts, s2, Connect(1));
    var s3 := Apply(s2, Connect(1));
    acts := Then(acts, s3, Resume(1, Connected(11)));
    var s4 := Apply(s3, Resume(1, Connected(11)));
    acts := Then(acts, s4, CloseEvent(10));
    var s5 := Apply(s4, CloseEvent(10));
    assert Reachable(s5);
  }

  // ---------- the object ----------

  /**
   A socket to the bridge as the worker holds it.  Whether its first, second or later send throws is up to the
   platform: `accepts` answers for each.  One that does not throw delivers its frame.
   */
  class BridgeSocket {
    const id: Id
    const accepts: nat -> bool
    var phase: Phase
    var tried: seq<Frame>
    var sent: seq<Frame>

    constructor (id: Id, accepts: nat -> bool)
      ensures this.id == id && this.accepts == accepts && phase == Silent && tried == [] && sent == []
    {
      this.id, this.accepts, phase, tried, sent := id, accepts, Silent, [], [];
    }

    method Send(frame: Frame) returns (ok: bool)
      modifies this`tried, this`sent
      ensures ok == accepts(|old(tried)|)
      ensures tried == old(tried) + [frame]
      ensures sent == if ok then old(sent) + [frame] else old(sent)
    {
      ok := accepts(|tried|);
      tried := tried + [frame];
      if ok {
        sent := sent + [frame];
      }
    }
  }

  /** One method per segment; each takes the fields through the function the step system uses for it. */
  class ContainerManager {
    var containerWs: BridgeSocket?
    var containerWsReady: bool
    /** What was posted to `/write` and to `/writeread`. */
    var writes: seq<Id>
    var writeReads: seq<Id>

    ghost function Fields(): Stream
      reads this
    {
      Stream(if containerWs == null then None else Some(containerWs.id), containerWsReady)
    }

    ghost predicate Valid()
      reads this, containerWs
    {
      && (containerWsReady ==> containerWs != null)
      && (containerWs != null ==> containerWs.phase.Listening?)
    }

    constructor ()
      ensures Valid() && Fields() == NO_STREAM && writes == [] && writeReads == []
    {
      containerWs, containerWsReady, writes, writeReads := null, false, [], [];
    }

    method CloseContainerWs()
      requires Valid()
      modifies this`containerWs, this`containerWsReady, containerWs
      ensures Valid() && Fields() == Shut(old(Fields()))
      ensures old(containerWs) != null ==>
        && old(containerWs).phase == Closing
        && old(containerWs).sent == old(containerWs.sent) && old(containerWs).tried == old(containerWs.tried)
    {
      if containerWs != null {
        containerWs.phase := Closing;
        containerWs, containerWsReady := null, false;
      }
    }

    /** The rest of `connectContainerWebSocket`: `None` is a fetch that threw, `Some(null)` one without a socket. */
    method FinishConnect(response: Option<BridgeSocket?>, acceptThrows: bool) returns (ghost answer: Answer)
      requires Valid()
      requires response.Some? && response.value != null ==>
        && response.value != containerWs && response.value.phase.Silent?
        && response.value.sent == [] == response.value.tried
      modifies this`containerWs, this`containerWsReady, if response.Some? then {response.value} else {}
      ensures Valid() && Fields() == AfterAnswer(old(Fields()), answer)
      ensures answer == FetchThrew <==> response.None?
      ensures answer == NoWebSocket <==> response == Some(null)
      ensures answer == AcceptThrew <==> response.Some? && response.value != null && acceptThrows
      ensures response.Some? && response.value != null ==>
        response.value.tried == if acceptThrows then [] else [InitFrame]
      ensures response.Some? && response.value != null && !acceptThrows ==>
        answer == if response.value.accepts(0) then Connected(response.value.id) else InitThrew(response.value.id)
      ensures answer.InitThrew? ==> response.value.sent == []
      ensures answer.Connected? ==> containerWs == response.value && response.value.sent == [InitFrame]
    {
      if response.None? {
        containerWs, containerWsReady := null, false;
        return FetchThrew;
      }
      var ws := response.value;
      if ws == null {
        return NoWebSocket;
      }
      if acceptThrows {
        containerWs, containerWsReady := null, false;
        return AcceptThrew;
      }
      containerWs := ws;
      var ok := ws.Send(InitFrame);
      if !ok {
        containerWs, containerWsReady := null, false;
        return InitThrew(ws.id);
      }
      ws.phase := Listening;
      containerWsReady := true;
      return Connected(ws.id);
    }

    method OnCloseEvent(socket: BridgeSocket)
      requires Valid()
      modifies this`containerWs, this`containerWsReady, socket`phase
      ensures Valid() && Fields() == NO_STREAM && socket.phase == Closed
    {
      socket.phase := Closed;
      containerWs, containerWsReady := null, false;
    }

    /** The outcome that the next send on the current stream has. */
    ghost predicate SendWorks()
      reads this, containerWs
    {
      containerWs != null && containerWs.accepts(|containerWs.tried|)
    }

    /** With a ready stream the message is sent on it, once, and posted to `/write` exactly when that send throws. */
    method SendToContainerWs(msg: Id) returns (effect: Effect)
      requires Valid()
      modifies this`containerWsReady, this`writes, if containerWs == null then {} else {containerWs}
      ensures Valid() && containerWs == old(containerWs)
      ensures (Fields(), effect) == SendOn(old(Fields()), old(SendWorks()))
      ensures writes == old(writes) + if effect.Written? then [msg] else []
      ensures containerWs != null ==>
        && containerWs.tried == old(containerWs.tried) + (if old(containerWsReady) then [ClientFrame(msg)] else [])
        && containerWs.sent == old(containerWs.sent) + if effect.Streamed? then [ClientFrame(msg)] else []
    {
      if containerWs != null && containerWsReady {
        var ok := containerWs.Send(ClientFrame(msg));
        if ok {
          return Streamed(containerWs.id);
        }
        containerWsReady := false;
      }
      writes := writes + [msg];
      return Written;
    }

    /** Exactly one of a streamed frame, a post to `/write` and a post to `/writeread`. */
    method OnClientMessage(msg: Id, kind: Kind) returns (effect: Effect)
      requires Valid()
      modifies this`containerWsReady, this`writes, this`writeReads, if containerWs == null then {} else {containerWs}
      ensures Valid() && containerWs == old(containerWs)
      ensures (Fields(), effect) == Route(old(Fields()), kind, old(SendWorks()))
      ensures effect.Streamed? <==> old(containerWsReady) && old(SendWorks())
      ensures effect.WrittenAndRead? <==> kind.Data? && !old(containerWsReady)
      ensures writes == old(writes) + if effect.Written? then [msg] else []
      ensures writeReads == old(writeReads) + if effect.WrittenAndRead? then [msg] else []
      ensures containerWs != null ==>
        && containerWs.tried == old(containerWs.tried) + (if old(containerWsReady) then [ClientFrame(msg)] else [])
        && containerWs.sent == old(containerWs.sent) + if effect.Streamed? then [ClientFrame(msg)] else []
    {
      if kind.Resize? || (containerWsReady && containerWs != null) {
        effect := SendToContainerWs(msg);
      } else {
        writeReads := writeReads + [msg];
        effect := WrittenAndRead;
      }
    }
  }
}
