/**
 Everything can arrive: from every state of a session that goes on, SSH can come to show all the output that was not
 lost, a last burst of any bytes included, and the relay to see any code the process may end with.
 */
module OutputArrivals {
  import opened Bytes
  import opened Wrappers
  import opened OutputBuffers
  import opened Bridge
  import opened BridgeInvariants
  import opened BridgeTraces
  import opened OutputPath
  import opened OutputHoles

  // ---------- the exit code, once there is one ----------

  lemma CodeKept(s: Path, x: Act)
    requires PathInv(s) && Can(s, x) && WaiterCode(s.bridge).Some?
    ensures WaiterCode(Do(s, x).bridge) == WaiterCode(s.bridge)
  {
    match x {
      case OnBridge(a) => CodeStep(s.bridge, a);
      case SendGet(req) => NewRequest(s.bridge, req);
      case _ =>
    }
  }

  lemma {:induction false} CodeStays(s: Path, acts: seq<Act>, t: Path)
    requires PathInv(s) && Continue(s, acts) == Some(t) && WaiterCode(s.bridge).Some?
    ensures WaiterCode(t.bridge) == WaiterCode(s.bridge)
  {
    if acts != [] {
      var mid := Continue(s, acts[..|acts| - 1]).value;
      CodeStays(s, acts[..|acts| - 1], mid);
      InvOn(s, acts[..|acts| - 1], mid);
      CodeKept(mid, acts[|acts| - 1]);
    }
  }

  // ---------- a last burst ----------

  /** The reader reads these bytes, and they are buffered. */
  lemma Burst(s0: Path, s: Path, acts0: seq<Act>, bytes: seq<Byte>) returns (acts: seq<Act>, t: Path)
    requires Reached(s0, acts0, s) && GoesOn(s) && |bytes| <= 32768
    requires s.bridge.reader.AtSelect? && |s.bridge.buffer| <= READ_SIZE
    ensures Reached(s0, acts, t) && GoesOn(t) && t.poller == s.poller && t.wire == s.wire
    ensures t.bridge.reader.AtSelect? || t.bridge.reader.Buffered?
    ensures Flatten(t.bridge.chunks) == Flatten(s.bridge.chunks) + bytes
  {
    acts, t := Read(s0, s, acts0, bytes);
    if bytes != [] {
      FlattenSnoc(s.bridge.chunks, bytes);
      acts, t := BufferHeld(s0, t, acts);
    }
  }

  // ---------- the last poll ----------

  /** The process is marked stopped, and nothing of its end has been polled yet. */
  predicate Stopped(s: Path) {
    !s.bridge.running && s.bridge.up && !s.bridge.halted && s.relay.Listening?
  }

  /** The reader side and the waiter are as they were, and so is what they have to say. */
  predicate SameEnd(s: Path, t: Path) {
    && t.bridge.chunks == s.bridge.chunks && t.bridge.reader == s.bridge.reader && t.bridge.waiter == s.bridge.waiter
  }

  lemma StopSteps(b: State)
    requires !b.halted && b.waiter.Reaped?
    ensures Enabled(b, Mark)
    ensures Apply(b, Mark) == b.(running := false, exitCode := b.waiter.code, waiter := Marked(b.waiter.code),
                                 stopMark := |Flatten(b.chunks)|)
  {
  }

  lemma LastDrain(b: State, req: Id)
    requires !b.halted && !b.running && req in b.requests && b.requests[req] == Draining
    ensures Enabled(b, Snapshot(req))
    ensures var b1 := b.(requests := b.requests[req := Flagged(false, b.exitCode)]);
      && Apply(b, Snapshot(req)) == b1 && Enabled(b1, Drain(req))
      && Apply(b1, Drain(req))
         == b1.(buffer := [], segments := b.segments + [Drained(req, b.buffer, Some(b.exitCode))],
                requests := b1.requests[req := Answered(Lines(b.buffer, Some(b.exitCode)))])
  {
  }

  /** One more poll, after the end: it brings out all that is buffered, and the exit. */
  lemma LastPoll(s0: Path, s: Path, acts0: seq<Act>) returns (acts: seq<Act>, t: Path)
    requires Reached(s0, acts0, s) && Stopped(s) && s.poller.AtPoll?
    ensures Reached(s0, acts, t) && Stopped(t) && SameEnd(s, t) && t.bridge.buffer == []
    ensures t.poller.Forwarding? && HasExit(t.codec, t.poller.lines)
  {
    var req := FreshId(s.bridge.requests.Keys);
    NewRequest(s.bridge, req);
    acts, t := Go(s0, acts0, s, SendGet(req));
    LastDrain(t.bridge, req);
    acts, t := Go(s0, acts, t, OnBridge(Snapshot(req)));
    acts, t := DrainLast(s0, t, acts, req);
    acts, t := Go(s0, acts, t, GotReply);
  }

  lemma DrainLast(s0: Path, s: Path, acts0: seq<Act>, req: Id) returns (acts: seq<Act>, t: Path)
    requires Reached(s0, acts0, s) && Stopped(s) && s.poller == Polling(req)
    requires req in s.bridge.requests && s.bridge.requests[req] == Flagged(false, s.bridge.exitCode)
    ensures Reached(s0, acts, t) && Stopped(t) && SameEnd(s, t) && t.bridge.buffer == [] && t.poller == s.poller
    ensures req in t.bridge.requests
    ensures t.bridge.requests[req] == Answered(Lines(s.bridge.buffer, Some(s.bridge.exitCode)))
  {
    acts, t := Go(s0, acts0, s, OnBridge(Drain(req)));
  }

  // ---------- the last lines ----------

  lemma RestHasExit(codec: Codec, lines: seq<string>)
    requires HasExit(codec, lines) && !codec.read(lines[0]).ExitSeen?
    ensures HasExit(codec, lines[1..])
  {
    var l :| l in lines && codec.read(l).ExitSeen?;
    assert l in lines[1..];
  }

  lemma {:induction false} ForwardToExit(s0: Path, s: Path, acts0: seq<Act>) returns (acts: seq<Act>, t: Path)
    requires Reached(s0, acts0, s) && s.poller.Forwarding? && HasExit(s.codec, s.poller.lines)
    ensures Reached(s0, acts, t) && t.bridge == s.bridge && t.relay == s.relay && t.poller.PollerGone?
    ensures t.codec == s.codec && HasExit(t.codec, t.wire)
    decreases |s.poller.lines|
  {
    var line := s.poller.lines[0];
    assert line in PollerLines(s);
    acts, t := Go(s0, acts0, s, ForwardLine(true));
    if s.codec.read(line).ExitSeen? {
      assert line in t.wire;
    } else {
      RestHasExit(s.codec, s.poller.lines);
      acts, t := ForwardToExit(s0, t, acts);
    }
  }

  lemma {:induction false} DeliverToExit(s0: Path, s: Path, acts0: seq<Act>) returns (acts: seq<Act>, t: Path)
    requires Reached(s0, acts0, s) && s.relay.Listening? && HasExit(s.codec, s.wire)
    ensures Reached(s0, acts, t) && t.bridge == s.bridge && t.relay.SawExit?
    decreases |s.wire|
  {
    var line := s.wire[0];
    assert Clean(s, line);
    acts, t := Go(s0, acts0, s, Deliver);
    if !s.codec.read(line).ExitSeen? {
      RestHasExit(s.codec, s.wire);
      acts, t := DeliverToExit(s0, t, acts);
    }
  }

  // ---------- putting it together ----------

  /** The code the session will end with: the one the process was reaped with, or else any that is chosen. */
  function CodeToBe(b: State, code: Int64): Int64 {
    if WaiterCode(b).Some? then WaiterCode(b).value else code
  }

  lemma Reaping(s: Path, code: Int64) returns (acts: seq<Act>, t: Path)
    requires PathInv(s) && GoesOn(s)
    ensures Reached(s, acts, t) && GoesOn(t) && WaiterCode(t.bridge) == Some(CodeToBe(s.bridge, code))
    ensures t.bridge.chunks == s.bridge.chunks && t.bridge.reader == s.bridge.reader
  {
    acts, t := [], s;
    if s.bridge.waiter.Waiting? {
      acts, t := Go(s, acts, t, OnBridge(Reap(code)));
    }
  }

  /** From a quiet state with the process reaped: a last burst, the end, and all of it is shown. */
  lemma EndFrom(u: Path, bytes: seq<Byte>) returns (acts: seq<Act>, t: Path)
    requires PathInv(u) && GoesOn(u) && u.poller.AtPoll? && u.bridge.waiter.Reaped? && |bytes| <= 32768
    requires u.bridge.reader.AtSelect? && |u.bridge.buffer| <= READ_SIZE
    ensures Reached(u, acts, t) && t.relay.SawExit? && t.bridge.buffer == [] && InReader(t.bridge) == []
    ensures Flatten(t.bridge.chunks) == Flatten(u.bridge.chunks) + bytes
  {
    acts, t := Burst(u, u, [], bytes);
    CodeStays(u, acts, t);
    acts, t := Ending(u, t, acts);
  }

  lemma Ending(u: Path, s: Path, acts0: seq<Act>) returns (acts: seq<Act>, t: Path)
    requires Reached(u, acts0, s) && GoesOn(s) && s.poller.AtPoll? && s.bridge.waiter.Reaped?
    ensures Reached(u, acts, t) && t.relay.SawExit? && t.bridge.buffer == []
    ensures t.bridge.chunks == s.bridge.chunks && t.bridge.reader == s.bridge.reader
  {
    StopSteps(s.bridge);
    acts, t := Go(u, acts0, s, OnBridge(Mark));
    acts, t := LastPoll(u, t, acts);
    acts, t := ForwardToExit(u, t, acts);
    acts, t := DeliverToExit(u, t, acts);
  }

  lemma Joined(s: Path, a: seq<Act>, m: Path, b: seq<Act>, t: Path)
    requires Reached(s, a, m) && Reached(m, b, t)
    ensures Reached(s, a + b, t)
  {
    ContinueAppend(s, a, m, b, t);
    SparedTrans(s, m, t);
  }

  /** The code the relay saw is the waiter's, which has had it ever since. */
  lemma CodeSeen(s: Path, acts: seq<Act>, t: Path)
    requires Reached(s, acts, t) && PathInv(s) && t.relay.SawExit? && WaiterCode(s.bridge).Some?
    ensures Some(t.relay.code) == WaiterCode(s.bridge)
  {
    CodeStays(s, acts, t);
    assert Verdict(t.bridge, t.relay.code);
  }

  lemma ReapedAt(s: Path, acts: seq<Act>, t: Path)
    requires Reached(s, acts, t) && PathInv(s) && GoesOn(t) && WaiterCode(s.bridge).Some?
    ensures t.bridge.waiter.Reaped?
  {
    CodeStays(s, acts, t);
  }

  /** The end of a session whose process was reaped already. */
  lemma EndOfReaped(s: Path, bytes: seq<Byte>) returns (acts: seq<Act>, t: Path)
    requires PathInv(s) && GoesOn(s) && WaiterCode(s.bridge).Some? && |bytes| <= 32768
    ensures Reached(s, acts, t) && t.relay.SawExit? && t.bridge.buffer == [] && InReader(t.bridge) == []
    ensures Flatten(t.bridge.chunks) == Flatten(s.bridge.chunks) + InReader(s.bridge) + bytes
  {
    var before, u := Quieten(s);
    ReapedAt(s, before, u);
    var after, end := EndFrom(u, bytes);
    Joined(s, before, u, after, end);
    acts, t := before + after, end;
  }

  lemma EndOf(s: Path, bytes: seq<Byte>, code: Int64) returns (acts: seq<Act>, t: Path)
    requires PathInv(s) && GoesOn(s) && |bytes| <= 32768
    ensures Reached(s, acts, t) && t.relay == SawExit(CodeToBe(s.bridge, code))
    ensures t.bridge.buffer == [] && InReader(t.bridge) == []
    ensures Flatten(t.bridge.chunks) == Flatten(s.bridge.chunks) + (InReader(s.bridge) + bytes)
  {
    var before, m := Reaping(s, code);
    var after, end := EndOfReaped(m, bytes);
    CodeSeen(m, after, end);
    Joined(s, before, m, after, end);
    acts, t := before + after, end;
    Regroup(Flatten(s.bridge.chunks), InReader(s.bridge), bytes);
  }

  lemma Regroup(a: seq<Byte>, b: seq<Byte>, c: seq<Byte>)
    ensures a + b + c == a + (b + c)
  {
  }

  /** With nothing left on the way, what SSH shows is all that was kept, and all that was released is the output. */
  lemma NothingOnTheWay(t: Path)
    requires PathInv(t) && t.relay.SawExit? && t.bridge.buffer == []
    ensures t.ssh == Kept(t.bridge.segments, t.lost) && Released(t.bridge.segments) == Flatten(t.bridge.chunks)
  {
    assert t.ssh + [] + [] == t.ssh && Released(t.bridge.segments) + [] == Released(t.bridge.segments);
  }

  /** Of the releases since `s` nothing is missing. */
  lemma SinceThen(s: Path, t: Path)
    requires Spared(s, t)
    ensures exists news: seq<Byte> ::
      && Released(t.bridge.segments) == Released(s.bridge.segments) + news
      && Kept(t.bridge.segments, t.lost) == Kept(s.bridge.segments, s.lost) + news
  {
    var n := |s.bridge.segments|;
    var news := t.bridge.segments[n..];
    assert t.bridge.segments == s.bridge.segments + news;
    ReleasedAppend(s.bridge.segments, news, s.lost);
    KeptIsAllIffWhole(news, s.lost);
  }

  lemma AllShown(s: Path, t: Path, more: seq<Byte>)
    requires PathInv(s) && PathInv(t) && Spared(s, t) && t.relay.SawExit? && t.bridge.buffer == []
    requires Flatten(t.bridge.chunks) == Flatten(s.bridge.chunks) + more
    ensures t.ssh == Kept(s.bridge.segments, s.lost) + (s.bridge.buffer + more)
    ensures Whole(s.bridge.segments, s.lost) ==> t.ssh == Flatten(t.bridge.chunks)
  {
    NothingOnTheWay(t);
    SinceThen(s, t);
    var news: seq<Byte> :| Released(t.bridge.segments) == Released(s.bridge.segments) + news
                           && Kept(t.bridge.segments, t.lost) == Kept(s.bridge.segments, s.lost) + news;
    SameRest(Released(s.bridge.segments), news, s.bridge.buffer, more);
    KeptIsAllIffWhole(s.bridge.segments, s.lost);
  }

  /** A continuation in which the PTY returns these bytes more, and all there is to show and to say arrives. */
  ghost predicate AllArrives(acts: seq<Act>, s: Path, more: seq<Act>, t: Path, bytes: seq<Byte>, code: Int64) {
    && Play(PROGRAM_CODEC, acts + more) == Some(t)
    && PtyOutput(acts + more) == PtyOutput(acts) + bytes
    && t.relay == SawExit(CodeToBe(s.bridge, code))
    && t.ssh == Kept(s.bridge.segments, s.lost) + (s.bridge.buffer + (InReader(s.bridge) + bytes))
    && (Whole(s.bridge.segments, s.lost) ==> t.ssh == PtyOutput(acts + more))
  }

  lemma OutputOnward(acts: seq<Act>, s: Path, more: seq<Act>, t: Path, bytes: seq<Byte>)
    requires Play(PROGRAM_CODEC, acts) == Some(s) && Play(PROGRAM_CODEC, acts + more) == Some(t)
    requires Flatten(t.bridge.chunks) == Flatten(s.bridge.chunks) + (InReader(s.bridge) + bytes)
    requires InReader(t.bridge) == []
    ensures PtyOutput(acts + more) == PtyOutput(acts) + bytes == Flatten(t.bridge.chunks)
  {
    RunIsShown(PROGRAM_CODEC, acts, s);
    RunIsShown(PROGRAM_CODEC, acts + more, t);
    Onward(Flatten(s.bridge.chunks), InReader(s.bridge), bytes, PtyOutput(acts), PtyOutput(acts + more));
  }

  lemma Onward(buffered: seq<Byte>, held: seq<Byte>, bytes: seq<Byte>, before: seq<Byte>, after: seq<Byte>)
    requires buffered + held == before && (buffered + (held + bytes)) + [] == after
    ensures after == before + bytes == buffered + (held + bytes)
  {
  }

  /**
   From every reachable state of a session that goes on, for every last burst that fits one read and every exit code:
   the run can go on so that SSH shows whatever was not lost before, all that the bridge and its reader still held, and
   the burst, and so that the relay sees the code; and with nothing lost SSH then shows all that the PTY ever returned.
   */
  lemma AllCanArrive(acts: seq<Act>, s: Path, bytes: seq<Byte>, code: Int64)
    requires Play(PROGRAM_CODEC, acts) == Some(s) && GoesOn(s) && |bytes| <= 32768
    ensures exists more: seq<Act>, t: Path :: AllArrives(acts, s, more, t, bytes, code)
  {
    ProgramCodecIsFaithful();
    PathInvAlways(PROGRAM_CODEC, acts, s);
    var more, t := EndOf(s, bytes, code);
    ContinueAppend(Start(PROGRAM_CODEC), acts, s, more, t);
    OutputOnward(acts, s, more, t, bytes);
    AllShown(s, t, InReader(s.bridge) + bytes);
    assert AllArrives(acts, s, more, t, bytes, code);
  }
}
