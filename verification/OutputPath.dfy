/**
 Terminal output end to end: the bridge, the local proxy's poll loop and the relay's output goroutine, stepped
 together.  There is one polling session, so only the poll loop reads; everything else the bridge can do stays
 free.  A delivered response is complete, but a response may be lost as a whole.

 The steps are written over a codec, so that the stream argument uses nothing about text but `Faithful`; the
 codec the programs use is `PROGRAM_CODEC`, and it is proved faithful from the concrete JSON and base64 functions.
 */
module OutputPath {
  import opened Bytes
  import opened Wrappers
  import opened Json
  import opened Framing
  import opened Bridge
  import opened BridgeInvariants
  import opened BridgeTheorems
  import opened BridgeTraces

  datatype Codec = Codec(
    lines: (seq<Byte>, Option<Int64>) -> seq<string>,
    seesExit: string -> bool,
    pong: Scalar -> string,
    read: string -> Event)

  const PROGRAM_CODEC: Codec :=
    Codec((data, exit) => ProxyLines(ReplyBody(data, exit)), ProxySeesExit, PongLine, RelayRead)

  datatype Poller =
    | AtPoll
    | Polling(req: Id)
    | Forwarding(lines: seq<string>)
    | PollerGone(lines: seq<string>)

  datatype Relay = Listening | SawExit(code: Int64) | RelayGone

  datatype Path = Path(
    codec: Codec,
    bridge: State,
    poller: Poller,
    wire: seq<string>,
    relay: Relay,
    ssh: seq<Byte>,
    notices: seq<string>,
    lost: set<Id>)

  datatype Act =
    | OnBridge(a: Action)
    | SendGet(req: Id)
    | GotReply
    | LoseReply
    | ForwardLine(ok: bool)
    | ForwardEnd
    | SeeDone
    | SendPong(timestamp: Scalar)
    | Deliver
    | HangUp

  function Start(codec: Codec): Path {
    Path(codec, Started(), AtPoll, [], Listening, [], [], {})
  }

  predicate Can(s: Path, x: Act) {
    match x
    case OnBridge(a) => Enabled(s.bridge, a) && !(a.Arrive? && !a.kind.WriteKind?)
    case SendGet(req) => s.poller.AtPoll? && Enabled(s.bridge, Arrive(req, ReadKind, []))
    case GotReply => s.poller.Polling? && s.poller.req in s.bridge.requests
                     && s.bridge.requests[s.poller.req].Answered? && s.bridge.requests[s.poller.req].reply.Lines?
    case LoseReply => s.poller.Polling?
    case ForwardLine(_) => s.poller.Forwarding? && s.poller.lines != []
    case ForwardEnd => s.poller.Forwarding? && s.poller.lines == []
    case SeeDone => s.poller.AtPoll?
    case SendPong(_) => true
    case Deliver => s.relay.Listening? && s.wire != []
    case HangUp => s.relay.Listening?
  }

  function Do(s: Path, x: Act): Path
    requires Can(s, x)
  {
    match x
    case OnBridge(a) => s.(bridge := Apply(s.bridge, a))
    case SendGet(req) => s.(bridge := Apply(s.bridge, Arrive(req, ReadKind, [])), poller := Polling(req))
    case GotReply =>
      var Lines(data, exit) := s.bridge.requests[s.poller.req].reply;
      s.(poller := Forwarding(s.codec.lines(data, exit)))
    case LoseReply => s.(poller := AtPoll, lost := s.lost + {s.poller.req})
    case ForwardLine(ok) => Forward(s, ok)
    case ForwardEnd => s.(poller := AtPoll)
    case SeeDone => s.(poller := PollerGone([]))
    case SendPong(timestamp) => s.(wire := s.wire + [s.codec.pong(timestamp)])
    case Deliver => Receive(s.(wire := s.wire[1..]), s.codec.read(s.wire[0]))
    case HangUp => s.(relay := RelayGone)
  }

  /** One line of a response: after a failed write, or once exit is sent, the poll loop returns. */
  function Forward(s: Path, ok: bool): Path
    requires s.poller.Forwarding? && s.poller.lines != []
  {
    var line, rest := s.poller.lines[0], s.poller.lines[1..];
    if !ok then s.(poller := PollerGone(s.poller.lines))
    else s.(wire := s.wire + [line], poller := if s.codec.seesExit(line) then PollerGone(rest) else Forwarding(rest))
  }

  function Receive(s: Path, event: Event): Path {
    match event
    case Output(bytes) => s.(ssh := s.ssh + bytes)
    case ExitSeen(code) => s.(relay := SawExit(code))
    case Notice(text) => s.(notices := s.notices + [text])
    case Ignored => s
  }

  /** The state after a run from `s`, if every step of it could be taken. */
  function Continue(s: Path, acts: seq<Act>): Option<Path> {
    if acts == [] then Some(s)
    else
      match Continue(s, acts[..|acts| - 1])
      case None => None
      case Some(mid) => if Can(mid, acts[|acts| - 1]) then Some(Do(mid, acts[|acts| - 1])) else None
  }

  function Play(codec: Codec, acts: seq<Act>): Option<Path> {
    Continue(Start(codec), acts)
  }

  lemma OneMore(s: Path, acts: seq<Act>, mid: Path, x: Act) returns (more: seq<Act>, t: Path)
    requires Continue(s, acts) == Some(mid) && Can(mid, x)
    ensures t == Do(mid, x) && Continue(s, more) == Some(t)
  {
    more, t := acts + [x], Do(mid, x);
    assert more[..|acts|] == acts;
  }

  // ---------- accounting ----------

  /** The drained bytes whose responses were not lost. */
  function Kept(segs: seq<Segment>, lost: set<Id>): seq<Byte> {
    if segs == [] then []
    else
      var x := segs[|segs| - 1];
      Kept(segs[..|segs| - 1], lost) + if x.Drained? && x.owner !in lost then x.bytes else []
  }

  lemma KeptSnoc(segs: seq<Segment>, x: Segment, lost: set<Id>)
    ensures Kept(segs + [x], lost) == Kept(segs, lost) + if x.Drained? && x.owner !in lost then x.bytes else []
  {
    assert (segs + [x])[..|segs|] == segs;
  }

  lemma {:induction false} KeptWithout(segs: seq<Segment>, lost: set<Id>, r: Id)
    requires forall x <- segs :: x.Drained? ==> x.owner != r
    ensures Kept(segs, lost + {r}) == Kept(segs, lost)
  {
    if segs != [] {
      KeptWithout(segs[..|segs| - 1], lost, r);
    }
  }

  function EventBytes(event: Event): seq<Byte> {
    if event.Output? then event.bytes else []
  }

  /** The bytes the relay will write for these lines. */
  function LinesBytes(codec: Codec, lines: seq<string>): seq<Byte> {
    if lines == [] then [] else EventBytes(codec.read(lines[0])) + LinesBytes(codec, lines[1..])
  }

  lemma {:induction false} LinesBytesSnoc(codec: Codec, lines: seq<string>, line: string)
    ensures LinesBytes(codec, lines + [line]) == LinesBytes(codec, lines) + EventBytes(codec.read(line))
  {
    if lines == [] {
      assert lines + [line] == [line] && [line][1..] == [];
    } else {
      assert (lines + [line])[1..] == lines[1..] + [line];
      LinesBytesSnoc(codec, lines[1..], line);
    }
  }

  function Pending(q: Request): seq<Byte> {
    if q.Answered? && q.reply.Lines? then q.reply.data else []
  }

  /** What the poll loop holds that has not been put on the wire. */
  function InHand(s: Path): seq<Byte> {
    match s.poller
    case AtPoll => []
    case Polling(r) => if r in s.bridge.requests then Pending(s.bridge.requests[r]) else []
    case Forwarding(lines) => LinesBytes(s.codec, lines)
    case PollerGone(lines) => LinesBytes(s.codec, lines)
  }

  // ---------- the codec ----------

  predicate QuietAfterExit(codec: Codec, lines: seq<string>) {
    forall i | 0 <= i < |lines| :: codec.read(lines[i]).ExitSeen? ==> LinesBytes(codec, lines[i + 1..]) == []
  }

  predicate HasExit(codec: Codec, lines: seq<string>) {
    exists l <- lines :: codec.read(l).ExitSeen?
  }

  /** These lines carry exactly these bytes, and exactly this exit, if any, after them. */
  predicate Carry(codec: Codec, ls: seq<string>, data: seq<Byte>, exit: Option<Int64>) {
    && LinesBytes(codec, ls) == data
    && QuietAfterExit(codec, ls)
    && (exit.Some? ==> HasExit(codec, ls))
    && forall l <- ls ::
         && !codec.read(l).Notice?
         && (codec.seesExit(l) <==> codec.read(l).ExitSeen?)
         && (codec.read(l).ExitSeen? ==> exit == Some(codec.read(l).code))
  }

  ghost predicate Faithful(codec: Codec) {
    && (forall data: seq<Byte>, exit: Option<Int64> :: Carry(codec, codec.lines(data, exit), data, exit))
    && (forall timestamp: Scalar :: codec.read(codec.pong(timestamp)) == Ignored)
  }

  lemma EventsCarry(codec: Codec, ls: seq<string>, fs: seq<Frame>, data: seq<Byte>, exit: Option<Int64>)
    requires fs == ReplyFrames(data, exit) && |ls| == |fs|
    requires forall i | 0 <= i < |fs| ::
      codec.read(ls[i]) == FrameEvent(fs[i]) && (codec.seesExit(ls[i]) <==> fs[i].ExitFrame?)
    ensures Carry(codec, ls, data, exit)
  {
    if |ls| == 1 {
      assert ls == [] + [ls[0]];
      LinesBytesSnoc(codec, [], ls[0]);
    } else if |ls| == 2 {
      assert ls == [ls[0]] + [ls[1]] && [ls[0]] == [] + [ls[0]];
      LinesBytesSnoc(codec, [], ls[0]);
      LinesBytesSnoc(codec, [ls[0]], ls[1]);
    }
    forall i | 0 <= i < |ls| && codec.read(ls[i]).ExitSeen? ensures LinesBytes(codec, ls[i + 1..]) == [] {
      assert i == |ls| - 1;
    }
    if exit.Some? {
      assert ls[|ls| - 1] in ls && codec.read(ls[|ls| - 1]).ExitSeen?;
    }
  }

  lemma ProgramCodecIsFaithful()
    ensures Faithful(PROGRAM_CODEC)
  {
    forall data: seq<Byte>, exit: Option<Int64>
      ensures Carry(PROGRAM_CODEC, PROGRAM_CODEC.lines(data, exit), data, exit)
    {
      var fs := ReplyFrames(data, exit);
      FramingRoundTrip(fs);
      forall i | 0 <= i < |fs|
        ensures PROGRAM_CODEC.read(FrameLines(fs)[i]) == FrameEvent(fs[i])
        ensures PROGRAM_CODEC.seesExit(FrameLines(fs)[i]) <==> fs[i].ExitFrame?
      {
        RelayReadsFrame(fs[i]);
        ProxySeesFrame(fs[i]);
      }
      EventsCarry(PROGRAM_CODEC, FrameLines(fs), fs, data, exit);
    }
    forall timestamp: Scalar ensures PROGRAM_CODEC.read(PROGRAM_CODEC.pong(timestamp)) == Ignored {
      PongIgnored(timestamp);
    }
  }

  // ---------- invariant ----------

  predicate RequestsInv(s: Path) {
    && (forall r <- s.bridge.requests ::
         (s.bridge.requests[r].Checked? ==> s.bridge.requests[r].kind.WriteKind?)
         && (s.bridge.requests[r].Draining? || s.bridge.requests[r].Flagged? ==> r in s.lost || s.poller == Polling(r)))
    && (forall r <- s.lost :: r in s.bridge.requests)
    && (s.poller.Polling? ==>
          && s.poller.req in s.bridge.requests && s.poller.req !in s.lost
          && var q := s.bridge.requests[s.poller.req];
             q.Draining? || q.Flagged? || (q.Answered? && q.reply.Lines?))
  }

  predicate AccountInv(s: Path) {
    && s.ssh + LinesBytes(s.codec, s.wire) + InHand(s) == Kept(s.bridge.segments, s.lost)
    && (s.poller.Polling? ==>
          s.ssh + LinesBytes(s.codec, s.wire) == Kept(s.bridge.segments, s.lost + {s.poller.req}))
  }

  predicate NoExit(s: Path, lines: seq<string>) {
    forall l <- lines :: !s.codec.read(l).ExitSeen?
  }

  predicate ExitAnswered(b: State) {
    exists r <- b.requests :: b.requests[r].Answered? && b.requests[r].reply.Lines? && b.requests[r].reply.exit.Some?
  }

  predicate Verdict(b: State, code: Int64) {
    !b.running && code == b.exitCode && ExitAnswered(b)
  }

  predicate Clean(s: Path, line: string) {
    && !s.codec.read(line).Notice?
    && (s.codec.read(line).ExitSeen? ==> Verdict(s.bridge, s.codec.read(line).code))
  }

  function PollerLines(s: Path): seq<string> {
    if s.poller.Forwarding? || s.poller.PollerGone? then s.poller.lines else []
  }

  predicate ExitInv(s: Path) {
    && s.notices == []
    && (forall l <- s.wire :: Clean(s, l))
    && (forall l <- PollerLines(s) :: Clean(s, l) && (s.codec.seesExit(l) <==> s.codec.read(l).ExitSeen?))
    && (s.relay.SawExit? ==> Verdict(s.bridge, s.relay.code) && LinesBytes(s.codec, s.wire) == [])
    && (s.relay.SawExit? || !NoExit(s, s.wire) ==> s.poller.PollerGone? && LinesBytes(s.codec, s.poller.lines) == [])
    && QuietAfterExit(s.codec, s.wire)
    && (s.poller.Forwarding? ==> QuietAfterExit(s.codec, s.poller.lines))
  }

  ghost predicate PathInv(s: Path) {
    Faithful(s.codec) && Inv(s.bridge) && s.bridge.up && RequestsInv(s) && AccountInv(s) && ExitInv(s)
  }

  // ---------- one step: the bridge side ----------

  lemma StartedIs()
    ensures Inv(Started()) && Started().up
    ensures Started() ==
      Init().(once := Finished, inits := map[0 := Ready], up := true, children := 1, running := true,
              reader := AtSelect, waiter := Waiting)
  {
    InvKept(Init(), CallOnce(0));
    InvKept(Apply(Init(), CallOnce(0)), StartChild(true));
  }

  lemma StartInv(codec: Codec)
    requires Faithful(codec)
    ensures PathInv(Start(codec))
  {
    StartedIs();
    StartRest(codec, Start(codec));
  }

  lemma StartRest(codec: Codec, s: Path)
    requires Inv(s.bridge) && s == Path(codec, s.bridge, AtPoll, [], Listening, [], [], {})
    requires s.bridge.requests == map[] && s.bridge.segments == []
    ensures RequestsInv(s) && AccountInv(s) && ExitInv(s)
  {
  }

  /** How one bridge step changes what was kept: only a drain can, by the bytes it takes. */
  lemma KeptStep(b: State, a: Action, lost: set<Id>)
    requires Enabled(b, a)
    ensures Kept(Apply(b, a).segments, lost)
         == Kept(b.segments, lost) + if a.Drain? && a.req !in lost then b.buffer else []
  {
    Untouched(b, a);
    var t := Apply(b, a);
    if a.Drain? || (a.ReaderBuffer? && t.segments != b.segments) {
      SegmentStep(b, a);
      KeptSnoc(b.segments, t.segments[|b.segments|], lost);
      assert t.segments == b.segments + [t.segments[|b.segments|]];
    }
  }

  lemma SegmentStep(b: State, a: Action)
    requires Enabled(b, a) && (a.Drain? || (a.ReaderBuffer? && Apply(b, a).segments != b.segments))
    ensures var t := Apply(b, a);
      && |t.segments| == |b.segments| + 1
      && var x := t.segments[|b.segments|];
         if a.Drain? then x.Drained? && x.owner == a.req && x.bytes == b.buffer else x.Evicted?
  {
  }

  lemma RequestsStay(b: State, a: Action)
    requires Enabled(b, a)
    ensures forall k <- b.requests :: k in Apply(b, a).requests
  {
  }

  /** How one bridge step moves a request on. */
  lemma RequestStep(b: State, a: Action, r: Id)
    requires Enabled(b, a) && b.up && r in Apply(b, a).requests && (a.Arrive? ==> a.kind.WriteKind?)
    ensures RequestMoved(b, a, r)
  {
    RequestsAlone(b, a);
    if RequestMoves(a) {
      MovingRequest(b, a, r);
    }
  }

  predicate RequestMoved(b: State, a: Action, r: Id)
    requires Enabled(b, a) && r in Apply(b, a).requests
  {
    var q := Apply(b, a).requests[r];
    if r !in b.requests then (q.Checked? && q.kind.WriteKind?) || q == Answered(Rejected)
    else
      var p := b.requests[r];
      if a == Drain(r) then q.Answered? && q.reply.Lines? && q.reply.data == b.buffer
      else if a == Snapshot(r) then q.Flagged?
      else if p.Checked? && p.kind.WriteKind? then q == p || (q.Answered? && !q.reply.Lines?)
      else p.Checked? || q == p
  }

  lemma MovingRequest(b: State, a: Action, r: Id)
    requires Enabled(b, a) && b.up && r in Apply(b, a).requests && (a.Arrive? ==> a.kind.WriteKind?)
    requires RequestMoves(a)
    ensures RequestMoved(b, a, r)
  {
  }

  lemma RequestsKeptOnBridge(s: Path, a: Action)
    requires Can(s, OnBridge(a)) && s.bridge.up && RequestsInv(s)
    ensures RequestsInv(Do(s, OnBridge(a)))
  {
    var t := Do(s, OnBridge(a));
    RequestsStay(s.bridge, a);
    forall r <- t.bridge.requests
      ensures t.bridge.requests[r].Checked? ==> t.bridge.requests[r].kind.WriteKind?
      ensures t.bridge.requests[r].Draining? || t.bridge.requests[r].Flagged? ==> r in t.lost || t.poller == Polling(r)
    {
      RequestStep(s.bridge, a, r);
    }
    if s.poller.Polling? {
      RequestStep(s.bridge, a, s.poller.req);
    }
  }

  lemma NewRequest(b: State, req: Id)
    requires Enabled(b, Arrive(req, ReadKind, [])) && b.up
    ensures Apply(b, Arrive(req, ReadKind, [])) == b.(requests := b.requests[req := Draining])
  {
  }

  lemma RequestsKept(s: Path, x: Act)
    requires Can(s, x) && s.bridge.up && RequestsInv(s)
    ensures RequestsInv(Do(s, x))
  {
    match x {
      case OnBridge(a) => RequestsKeptOnBridge(s, a);
      case SendGet(req) => NewRequest(s.bridge, req);
      case _ =>
    }
  }

  // ---------- one step: the accounts ----------

  lemma Assoc(a: seq<Byte>, b: seq<Byte>, c: seq<Byte>)
    ensures (a + b) + c == a + (b + c)
  {
  }

  lemma AccountKept(s: Path, x: Act)
    requires Can(s, x) && PathInv(s)
    ensures AccountInv(Do(s, x))
  {
    match x {
      case OnBridge(a) => AccountKeptOnBridge(s, a);
      case SendGet(req) =>
        NewRequest(s.bridge, req);
        KeptWithout(s.bridge.segments, s.lost, req);
      case GotReply =>
        var Lines(data, exit) := s.bridge.requests[s.poller.req].reply;
        assert Carry(s.codec, s.codec.lines(data, exit), data, exit);
      case ForwardLine(ok) => ForwardKeeps(s, ok);
      case Deliver => DeliverKeeps(s);
      case SendPong(timestamp) =>
        LinesBytesSnoc(s.codec, s.wire, s.codec.pong(timestamp));
        assert LinesBytes(s.codec, s.wire) + [] == LinesBytes(s.codec, s.wire);
      case _ =>
    }
  }

  lemma ForwardKeeps(s: Path, ok: bool)
    requires Can(s, ForwardLine(ok)) && AccountInv(s)
    ensures AccountInv(Do(s, ForwardLine(ok)))
  {
    var line, rest := s.poller.lines[0], s.poller.lines[1..];
    LinesBytesSnoc(s.codec, s.wire, line);
    var wire, bytes := LinesBytes(s.codec, s.wire), EventBytes(s.codec.read(line));
    Assoc(s.ssh, wire, bytes);
    Assoc(s.ssh + wire, bytes, LinesBytes(s.codec, rest));
  }

  lemma DeliverKeeps(s: Path)
    requires Can(s, Deliver) && AccountInv(s)
    ensures AccountInv(Do(s, Deliver))
  {
    Assoc(s.ssh, EventBytes(s.codec.read(s.wire[0])), LinesBytes(s.codec, s.wire[1..]));
    assert s.ssh + [] == s.ssh;
  }

  lemma AccountKeptOnBridge(s: Path, a: Action)
    requires Can(s, OnBridge(a)) && s.bridge.up && RequestsInv(s) && AccountInv(s)
    ensures AccountInv(Do(s, OnBridge(a)))
  {
    KeptStep(s.bridge, a, s.lost);
    if s.poller.Polling? {
      KeptStep(s.bridge, a, s.lost + {s.poller.req});
      PendingStep(s, a);
      var base := s.ssh + LinesBytes(s.codec, s.wire);
      assert base + [] == base;
    }
  }

  /** While a response is awaited, only that request's own drain changes what it will carry. */
  lemma PendingStep(s: Path, a: Action)
    requires Can(s, OnBridge(a)) && s.bridge.up && RequestsInv(s) && s.poller.Polling?
    ensures var r := s.poller.req;
      && r in Apply(s.bridge, a).requests
      && Pending(Apply(s.bridge, a).requests[r])
         == (if a == Drain(r) then s.bridge.buffer else Pending(s.bridge.requests[r]))
      && (a == Drain(r) ==> Pending(s.bridge.requests[r]) == [])
      && (a.Drain? && a.req != r ==> a.req in s.lost)
  {
    RequestsStay(s.bridge, a);
    RequestStep(s.bridge, a, s.poller.req);
  }

  // ---------- one step: exit ----------

  lemma VerdictKept(b: State, a: Action, code: Int64)
    requires Enabled(b, a) && Inv(b) && Verdict(b, code) && b.up
    ensures Verdict(Apply(b, a), code)
  {
    var r :| r in b.requests && b.requests[r].Answered? && b.requests[r].reply.Lines? && b.requests[r].reply.exit.Some?;
    RememberStep(b, a);
    AnswerStays(b, a, r);
  }

  lemma AnswerStays(b: State, a: Action, r: Id)
    requires Enabled(b, a) && r in b.requests && b.requests[r].Answered?
    ensures r in Apply(b, a).requests && Apply(b, a).requests[r] == b.requests[r]
  {
    RequestsAlone(b, a);
    if RequestMoves(a) {
      AnswerKept(b, a, r);
    }
  }

  lemma AnswerKept(b: State, a: Action, r: Id)
    requires Enabled(b, a) && r in b.requests && b.requests[r].Answered? && RequestMoves(a)
    ensures r in Apply(b, a).requests && Apply(b, a).requests[r] == b.requests[r]
  {
  }

  lemma ExitKeptOnBridge(s: Path, a: Action)
    requires Can(s, OnBridge(a)) && PathInv(s)
    ensures ExitInv(Do(s, OnBridge(a)))
  {
    var t := Do(s, OnBridge(a));
    forall l | Clean(s, l) ensures Clean(t, l) {
      if s.codec.read(l).ExitSeen? {
        VerdictKept(s.bridge, a, s.codec.read(l).code);
      }
    }
    if s.relay.SawExit? {
      VerdictKept(s.bridge, a, s.relay.code);
    }
  }

  lemma ExitKept(s: Path, x: Act)
    requires Can(s, x) && PathInv(s)
    ensures ExitInv(Do(s, x))
  {
    match x {
      case OnBridge(a) => ExitKeptOnBridge(s, a);
      case SendGet(req) => ExitKeptSendGet(s, req);
      case GotReply => ExitKeptReply(s);
      case ForwardLine(ok) => ExitKeptForward(s, ok);
      case SendPong(timestamp) => ExitKeptAppend(s, s.codec.pong(timestamp));
      case Deliver => ExitKeptDeliver(s);
      case _ =>
    }
  }

  lemma ExitKeptSendGet(s: Path, req: Id)
    requires Can(s, SendGet(req)) && PathInv(s)
    ensures ExitInv(Do(s, SendGet(req)))
  {
    NewRequest(s.bridge, req);
  }

  lemma ExitKeptReply(s: Path)
    requires Can(s, GotReply) && PathInv(s)
    ensures ExitInv(Do(s, GotReply))
  {
    var Lines(data, exit) := s.bridge.requests[s.poller.req].reply;
    assert Carry(s.codec, s.codec.lines(data, exit), data, exit);
    assert AnsweredExit(s.bridge, s.poller.req);
  }

  lemma QuietSnoc(codec: Codec, lines: seq<string>, line: string)
    requires QuietAfterExit(codec, lines)
    requires EventBytes(codec.read(line)) == [] || forall l <- lines :: !codec.read(l).ExitSeen?
    ensures QuietAfterExit(codec, lines + [line])
  {
    forall i | 0 <= i < |lines + [line]| && codec.read((lines + [line])[i]).ExitSeen?
      ensures LinesBytes(codec, (lines + [line])[i + 1..]) == []
    {
      if i < |lines| {
        assert (lines + [line])[i + 1..] == lines[i + 1..] + [line];
        LinesBytesSnoc(codec, lines[i + 1..], line);
      }
    }
  }

  lemma ExitKeptAppend(s: Path, line: string)
    requires ExitInv(s) && s.codec.read(line) == Ignored
    ensures ExitInv(s.(wire := s.wire + [line]))
  {
    QuietSnoc(s.codec, s.wire, line);
    LinesBytesSnoc(s.codec, s.wire, line);
  }

  lemma QuietTail(codec: Codec, lines: seq<string>)
    requires QuietAfterExit(codec, lines) && lines != []
    ensures QuietAfterExit(codec, lines[1..])
    ensures forall l <- lines[1..] :: l in lines
    ensures codec.read(lines[0]).ExitSeen? ==> LinesBytes(codec, lines[1..]) == []
  {
    var rest := lines[1..];
    assert forall i | 0 <= i < |rest| :: rest[i] == lines[i + 1] && rest[i + 1..] == lines[i + 2..];
  }

  lemma ExitKeptForward(s: Path, ok: bool)
    requires Can(s, ForwardLine(ok)) && PathInv(s)
    ensures ExitInv(Do(s, ForwardLine(ok)))
  {
    QuietSnoc(s.codec, s.wire, s.poller.lines[0]);
    QuietTail(s.codec, s.poller.lines);
  }

  lemma ExitKeptDeliver(s: Path)
    requires Can(s, Deliver) && PathInv(s)
    ensures ExitInv(Do(s, Deliver))
  {
    assert Clean(s, s.wire[0]);
    QuietTail(s.codec, s.wire);
  }

  // ---------- the theorems ----------

  lemma BridgeKept(s: Path, x: Act)
    requires Can(s, x) && PathInv(s)
    ensures Inv(Do(s, x).bridge) && Do(s, x).bridge.up
  {
    if x.OnBridge? {
      InvKept(s.bridge, x.a);
      Untouched(s.bridge, x.a);
    } else if x.SendGet? {
      InvKept(s.bridge, Arrive(x.req, ReadKind, []));
      NewRequest(s.bridge, x.req);
    }
  }

  lemma PathInvKept(s: Path, x: Act)
    requires Can(s, x) && PathInv(s)
    ensures PathInv(Do(s, x)) && Do(s, x).codec == s.codec
  {
    BridgeKept(s, x);
    RequestsKept(s, x);
    AccountKept(s, x);
    ExitKept(s, x);
  }

  lemma {:induction false} PathInvAlways(codec: Codec, acts: seq<Act>, s: Path)
    requires Faithful(codec) && Play(codec, acts) == Some(s)
    ensures PathInv(s) && s.codec == codec
  {
    if acts == [] {
      StartInv(codec);
    } else {
      var mid := Play(codec, acts[..|acts| - 1]).value;
      var x := acts[|acts| - 1];
      PathInvAlways(codec, acts[..|acts| - 1], mid);
      PathInvKept(mid, x);
    }
  }

  /** No byte was cut off by the cap and no byte went down with a lost response. */
  predicate Whole(segs: seq<Segment>, lost: set<Id>) {
    forall x <- segs :: x.bytes == [] || (x.Drained? && x.owner !in lost)
  }

  /** The kept bytes are all the released bytes exactly when nothing was evicted or lost. */
  lemma {:induction false} KeptIsAllIffWhole(segs: seq<Segment>, lost: set<Id>)
    ensures Kept(segs, lost) == Released(segs) <==> Whole(segs, lost)
    ensures |Kept(segs, lost)| <= |Released(segs)|
  {
    if segs != [] {
      var segs0, x := segs[..|segs| - 1], segs[|segs| - 1];
      assert segs == segs0 + [x];
      KeptIsAllIffWhole(segs0, lost);
      var kept := if x.Drained? && x.owner !in lost then x.bytes else [];
      if Kept(segs, lost) == Released(segs) {
        assert |Kept(segs0, lost)| + |kept| == |Released(segs0)| + |x.bytes|;
        assert Kept(segs, lost)[..|Released(segs0)|] == Kept(segs0, lost);
      }
    }
  }

  /**
   In every run: what reached SSH, then what is on the wire, then what the poll loop holds, is exactly the drained
   output whose responses were not lost, in order; and nothing but terminal output is written to SSH.
   */
  lemma EndToEndAccount(acts: seq<Act>, s: Path)
    requires Play(PROGRAM_CODEC, acts) == Some(s)
    ensures s.ssh + LinesBytes(s.codec, s.wire) + InHand(s) == Kept(s.bridge.segments, s.lost)
    ensures s.notices == []
  {
    ProgramCodecIsFaithful();
    PathInvAlways(PROGRAM_CODEC, acts, s);
  }

  // ---------- the bridge's share of a run ----------

  function BridgePart(x: Act): seq<Action> {
    match x
    case OnBridge(a) => [a]
    case SendGet(req) => [Arrive(req, ReadKind, [])]
    case _ => []
  }

  function BridgeActs(acts: seq<Act>): seq<Action> {
    if acts == [] then [CallOnce(0), StartChild(true)]
    else BridgeActs(acts[..|acts| - 1]) + BridgePart(acts[|acts| - 1])
  }

  lemma ExecSnoc(s: State, acts: seq<Action>, mid: State, a: Action)
    requires Exec(s, acts) == Some(mid) && Enabled(mid, a)
    ensures Exec(s, acts + [a]) == Some(Apply(mid, a))
  {
    assert (acts + [a])[..|acts|] == acts;
  }

  lemma StartedRun()
    ensures Exec(Init(), [CallOnce(0), StartChild(true)]) == Some(Started())
  {
    assert Exec(Init(), []) == Some(Init());
    ExecSnoc(Init(), [], Init(), CallOnce(0));
    ExecSnoc(Init(), [] + [CallOnce(0)], Apply(Init(), CallOnce(0)), StartChild(true));
    assert ([] + [CallOnce(0)]) + [StartChild(true)] == [CallOnce(0), StartChild(true)];
  }

  lemma {:induction false} BridgeRun(codec: Codec, acts: seq<Act>, s: Path)
    requires Play(codec, acts) == Some(s)
    ensures Exec(Init(), BridgeActs(acts)) == Some(s.bridge)
  {
    if acts == [] {
      StartedRun();
    } else {
      var before, x := acts[..|acts| - 1], acts[|acts| - 1];
      var mid := Continue(Start(codec), before).value;
      BridgeRun(codec, before, mid);
      assert BridgeActs(before) + [] == BridgeActs(before);
      match x {
        case OnBridge(a) => ExecSnoc(Init(), BridgeActs(before), mid.bridge, a);
        case SendGet(req) => ExecSnoc(Init(), BridgeActs(before), mid.bridge, Arrive(req, ReadKind, []));
        case _ =>
      }
    }
  }

  /** All the bytes the PTY returned in a run. */
  function PtyOutput(acts: seq<Act>): seq<Byte> {
    if acts == [] then []
    else
      var x := acts[|acts| - 1];
      PtyOutput(acts[..|acts| - 1]) + if x.OnBridge? && x.a.ReaderRead? then x.a.chunk else []
  }

  lemma ReadSnoc(acts: seq<Action>, a: Action)
    ensures PtyRead(acts + [a]) == PtyRead(acts) + if a.ReaderRead? then a.chunk else []
  {
    assert (acts + [a])[..|acts|] == acts;
  }

  lemma PartRead(before: seq<Action>, x: Act)
    ensures PtyRead(before + BridgePart(x))
         == PtyRead(before) + if x.OnBridge? && x.a.ReaderRead? then x.a.chunk else []
  {
    if BridgePart(x) == [] {
      assert before + [] == before && PtyRead(before) + [] == PtyRead(before);
    } else {
      ReadSnoc(before, BridgePart(x)[0]);
    }
  }

  lemma {:induction false} SameOutput(acts: seq<Act>)
    ensures PtyOutput(acts) == PtyRead(BridgeActs(acts))
  {
    if acts == [] {
      ReadSnoc([], CallOnce(0));
      ReadSnoc([] + [CallOnce(0)], StartChild(true));
      assert ([] + [CallOnce(0)]) + [StartChild(true)] == [CallOnce(0), StartChild(true)];
    } else {
      SameOutput(acts[..|acts| - 1]);
      PartRead(BridgeActs(acts[..|acts| - 1]), acts[|acts| - 1]);
    }
  }

  lemma {:induction false} SameReap(acts: seq<Act>, code: Int64)
    requires Reap(code) in BridgeActs(acts)
    ensures OnBridge(Reap(code)) in acts
  {
    if acts != [] && Reap(code) in BridgeActs(acts[..|acts| - 1]) {
      SameReap(acts[..|acts| - 1], code);
    }
  }

  /** What was buffered is what the PTY returned, but for the chunk in the reader's hands; the code is the process's. */
  lemma RunIsShown(codec: Codec, acts: seq<Act>, s: Path)
    requires Play(codec, acts) == Some(s)
    ensures Flatten(s.bridge.chunks) + InReader(s.bridge) == PtyOutput(acts)
    ensures s.bridge.up && !s.bridge.running ==> OnBridge(Reap(s.bridge.exitCode)) in acts
  {
    BridgeRun(codec, acts, s);
    SameOutput(acts);
    OutputIsRead(BridgeActs(acts), s.bridge);
    CodeIsReaped(BridgeActs(acts), s.bridge);
    if s.bridge.up && !s.bridge.running {
      SameReap(acts, s.bridge.exitCode);
    }
  }

  predicate HungUp(acts: seq<Act>) {
    acts != [] && (HungUp(acts[..|acts| - 1]) || acts[|acts| - 1].HangUp?)
  }

  predicate SawDone(acts: seq<Act>) {
    acts != [] && (SawDone(acts[..|acts| - 1]) || acts[|acts| - 1].SeeDone?)
  }

  /** A relay that hung up shows nothing more, and a poll loop that saw `done` closed polls no more. */
  lemma {:induction false} EndsAreFinal(codec: Codec, acts: seq<Act>, s: Path)
    requires Play(codec, acts) == Some(s)
    ensures HungUp(acts) ==> s.relay.RelayGone?
    ensures SawDone(acts) ==> s.poller.PollerGone? && s.poller.lines == []
  {
    if acts != [] {
      var mid := Continue(Start(codec), acts[..|acts| - 1]).value;
      EndsAreFinal(codec, acts[..|acts| - 1], mid);
      EndStep(mid, acts[|acts| - 1]);
    }
  }

  lemma EndStep(s: Path, x: Act)
    requires Can(s, x)
    ensures x.HangUp? || s.relay.RelayGone? ==> Do(s, x).relay.RelayGone?
    ensures x.SeeDone? || s.poller == PollerGone([]) ==> Do(s, x).poller == PollerGone([])
  {
  }

  /** What was delivered last: its bytes are shown, a notice is kept, and exit ends the listening. */
  lemma DeliverShows(s: Path)
    requires Can(s, Deliver)
    ensures var e, t := s.codec.read(s.wire[0]), Do(s, Deliver);
      && t.ssh == s.ssh + EventBytes(e)
      && t.notices == s.notices + (if e.Notice? then [e.text] else [])
      && t.relay == (if e.ExitSeen? then SawExit(e.code) else Listening)
  {
    assert s.ssh + [] == s.ssh && s.notices + [] == s.notices;
  }

  /**
   While no byte was evicted and no response lost, what SSH has received is a prefix of what the PTY returned; and
   once the relay has seen exit it includes every byte buffered before the process was marked stopped, and the code is
   the one the process was reaped with.
   */
  lemma EndToEnd(acts: seq<Act>, s: Path)
    requires Play(PROGRAM_CODEC, acts) == Some(s) && Whole(s.bridge.segments, s.lost)
    ensures s.ssh <= Flatten(s.bridge.chunks) <= PtyOutput(acts)
    ensures s.relay.SawExit? ==>
      && !s.bridge.running && s.relay.code == s.bridge.exitCode && OnBridge(Reap(s.relay.code)) in acts
      && s.bridge.stopMark <= |s.ssh|
      && Flatten(s.bridge.chunks)[..s.bridge.stopMark] <= s.ssh
  {
    ProgramCodecIsFaithful();
    PathInvAlways(PROGRAM_CODEC, acts, s);
    RunIsShown(PROGRAM_CODEC, acts, s);
    SshIsPrefix(s);
    if s.relay.SawExit? {
      ExitComesLast(s);
      assert Flatten(s.bridge.chunks)[..s.bridge.stopMark] == s.ssh[..s.bridge.stopMark];
    }
  }

  lemma SshIsPrefix(s: Path)
    requires PathInv(s) && Whole(s.bridge.segments, s.lost)
    ensures s.ssh <= Flatten(s.bridge.chunks)
  {
    KeptIsAllIffWhole(s.bridge.segments, s.lost);
    FirstPart(s.ssh, LinesBytes(s.codec, s.wire), InHand(s), s.bridge.buffer, Flatten(s.bridge.chunks));
  }

  lemma ExitComesLast(s: Path)
    requires PathInv(s) && Whole(s.bridge.segments, s.lost) && s.relay.SawExit?
    ensures s.bridge.stopMark <= |s.ssh|
  {
    KeptIsAllIffWhole(s.bridge.segments, s.lost);
    StopMarkReleased(s.bridge);
    assert LinesBytes(s.codec, s.wire) == [] && InHand(s) == [];
    assert |s.ssh + [] + []| == |s.ssh|;
  }

  lemma FirstPart(a: seq<Byte>, b: seq<Byte>, c: seq<Byte>, d: seq<Byte>, all: seq<Byte>)
    requires a + b + c + d == all
    ensures a <= all
  {
  }

  lemma StopMarkReleased(b: State)
    requires Inv(b) && ExitAnswered(b)
    ensures b.stopMark <= |Released(b.segments)|
  {
    var r :| r in b.requests && b.requests[r].Answered? && b.requests[r].reply.Lines? && b.requests[r].reply.exit.Some?;
    assert HasDrain(b, r);
    var x := Drained(r, b.requests[r].reply.data, b.requests[r].reply.exit);
    var i :| 0 <= i < |b.segments| && b.segments[i] == x;
    assert ExitSegment(b, i);
    ReleasedPrefix(b.segments, i + 1);
  }
}
