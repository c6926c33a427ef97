/** What a lost poll response costs: a run in which a response gets lost and SSH goes on with a hole in its output. */
module LostReplies {
  import opened Bytes
  import opened Wrappers
  import opened Framing
  import opened Bridge
  import opened OutputPath

  /** The reader is about to read and nobody else is under way. */
  predicate Idle(s: Path) {
    && s.bridge.reader == AtSelect && !s.bridge.done && !s.bridge.halted && s.bridge.up && s.bridge.running
    && s.bridge.clients == map[] && s.bridge.buffer == [] && s.poller.AtPoll?
  }

  lemma ReadSteps(b: State, x: Byte)
    requires b.reader == AtSelect && !b.done && !b.halted
    ensures Enabled(b, ReaderSelect) && Apply(b, ReaderSelect) == b.(reader := InRead)
    ensures var b1 := b.(reader := InRead);
      Enabled(b1, ReaderRead([x])) && Apply(b1, ReaderRead([x])) == b.(reader := Holding([x]))
  {
  }

  lemma BufferSteps(b: State, x: Byte)
    requires b.reader == Holding([x]) && !b.halted && b.buffer == []
    ensures Enabled(b, ReaderBuffer)
    ensures Apply(b, ReaderBuffer) == b.(reader := Buffered([x]), buffer := [x], chunks := b.chunks + [[x]])
  {
    assert [] + [x] == [x];
  }

  lemma NobodySteps(b: State, x: Byte)
    requires b.reader == Buffered([x]) && !b.halted && b.clients == map[]
    ensures Enabled(b, ReaderLock) && Apply(b, ReaderLock) == b.(reader := Sending([x], {}))
    ensures var b1 := b.(reader := Sending([x], {}));
      Enabled(b1, ReaderUnlock) && Apply(b1, ReaderUnlock) == b.(reader := AtSelect)
  {
    assert Live(b) == {};
  }

  /** One byte is read and buffered; with no client there is nobody to broadcast it to. */
  lemma ReadsByte(codec: Codec, acts0: seq<Act>, s: Path, x: Byte) returns (acts: seq<Act>, t: Path)
    requires Play(codec, acts0) == Some(s) && Idle(s)
    ensures Play(codec, acts) == Some(t)
    ensures t == s.(bridge := s.bridge.(buffer := [x], chunks := s.bridge.chunks + [[x]]))
  {
    var b := s.bridge;
    ReadSteps(b, x);
    acts, t := OneMore(Start(codec), acts0, s, OnBridge(ReaderSelect));
    acts, t := OneMore(Start(codec), acts, t, OnBridge(ReaderRead([x])));
    BufferSteps(t.bridge, x);
    acts, t := OneMore(Start(codec), acts, t, OnBridge(ReaderBuffer));
    NobodySteps(t.bridge, x);
    acts, t := OneMore(Start(codec), acts, t, OnBridge(ReaderLock));
    acts, t := OneMore(Start(codec), acts, t, OnBridge(ReaderUnlock));
  }

  lemma DrainSteps(b: State, req: Id)
    requires !b.halted && b.running && req in b.requests && b.requests[req] == Draining
    ensures Enabled(b, Snapshot(req))
    ensures var b1 := b.(requests := b.requests[req := Flagged(true, b.exitCode)]);
      && Apply(b, Snapshot(req)) == b1 && Enabled(b1, Drain(req))
      && Apply(b1, Drain(req)) == b1.(buffer := [], segments := b.segments + [Drained(req, b.buffer, None)],
                                      requests := b1.requests[req := Answered(Lines(b.buffer, None))])
  {
  }

  /** A poll is sent and the bridge answers it with all it has. */
  lemma Polled(codec: Codec, acts0: seq<Act>, s: Path, req: Id) returns (acts: seq<Act>, t: Path)
    requires Play(codec, acts0) == Some(s) && req !in s.bridge.requests
    requires Idle(s.(bridge := s.bridge.(buffer := [])))
    ensures Play(codec, acts) == Some(t) && t == s.(bridge := t.bridge, poller := Polling(req))
    ensures Idle(t.(poller := AtPoll)) && t.bridge.chunks == s.bridge.chunks
    ensures t.bridge.requests == s.bridge.requests[req := Answered(Lines(s.bridge.buffer, None))]
  {
    NewRequest(s.bridge, req);
    acts, t := OneMore(Start(codec), acts0, s, SendGet(req));
    DrainSteps(t.bridge, req);
    acts, t := OneMore(Start(codec), acts, t, OnBridge(Snapshot(req)));
    acts, t := OneMore(Start(codec), acts, t, OnBridge(Drain(req)));
  }

  /** The first byte is drained into a response that gets lost. */
  lemma LosesFirst(codec: Codec, x: Byte) returns (acts: seq<Act>, t: Path)
    ensures Play(codec, acts) == Some(t) && Idle(t) && t.codec == codec && t.relay.Listening?
    ensures t.wire == [] && t.ssh == [] && t.bridge.chunks == [[x]] && t.bridge.requests.Keys == {0}
  {
    acts, t := ReadsByte(codec, [], Start(codec), x);
    acts, t := Polled(codec, acts, t, 0);
    acts, t := OneMore(Start(codec), acts, t, LoseReply);
  }

  /** The second byte arrives, in a response of one line. */
  lemma DeliversSecond(codec: Codec, acts0: seq<Act>, s: Path, y: Byte, line: string) returns (acts: seq<Act>, t: Path)
    requires Play(codec, acts0) == Some(s) && Idle(s) && s.codec == codec && s.relay.Listening?
    requires s.wire == [] && s.ssh == [] && s.bridge.requests.Keys == {0}
    requires codec.lines([y], None) == [line] && codec.read(line) == Output([y]) && !codec.seesExit(line)
    ensures Play(codec, acts) == Some(t) && t.ssh == [y] && t.wire == []
    ensures t.bridge.chunks == s.bridge.chunks + [[y]]
  {
    acts, t := ReadsByte(codec, acts0, s, y);
    acts, t := Polled(codec, acts, t, 1);
    acts, t := OneMore(Start(codec), acts, t, GotReply);
    acts, t := OneMore(Start(codec), acts, t, ForwardLine(true));
    assert [] + [line] == [line] && [line][1..] == [] && [] + [y] == [y];
    acts, t := OneMore(Start(codec), acts, t, Deliver);
  }

  lemma OneLine(y: Byte) returns (line: string)
    ensures PROGRAM_CODEC.lines([y], None) == [line]
    ensures PROGRAM_CODEC.read(line) == Output([y]) && !PROGRAM_CODEC.seesExit(line)
  {
    var f := DataFrame([y]);
    line := FrameLine(f);
    FramingRoundTrip([f]);
    RelayReadsFrame(f);
    ProxySeesFrame(f);
    assert FrameLines([f]) == [line];
    assert ReplyFrames([y], None) == [f];
  }

  /** The PTY wrote 1 and 2, SSH shows 2, and nothing is on its way. */
  predicate Hole(s: Path) {
    Flatten(s.bridge.chunks) == [1, 2] && s.ssh == [2] && s.wire == []
  }

  lemma TwoChunks(chunks: seq<seq<Byte>>)
    requires chunks == [[1]] + [[2]]
    ensures Flatten(chunks) == [1, 2]
  {
    FlattenSnoc([[1]], [2]);
    FlattenSnoc([], [1]);
    assert [] + [[1]] == [[1]] && [] + [1] == [1];
  }

  lemma HoleRun(codec: Codec, line: string) returns (acts: seq<Act>, s: Path)
    requires codec.lines([2], None) == [line] && codec.read(line) == Output([2]) && !codec.seesExit(line)
    ensures Play(codec, acts) == Some(s) && Hole(s)
  {
    acts, s := LosesFirst(codec, 1);
    acts, s := DeliversSecond(codec, acts, s, 2, line);
    TwoChunks(s.bridge.chunks);
  }

  /** Two bytes were written and drained; the response with the first was lost, and SSH goes on with the second. */
  lemma LostReplyLeavesHole()
    ensures exists acts: seq<Act>, s: Path :: Play(PROGRAM_CODEC, acts) == Some(s) && Hole(s)
  {
    var line := OneLine(2);
    var acts, s := HoleRun(PROGRAM_CODEC, line);
    assert Play(PROGRAM_CODEC, acts) == Some(s) && Hole(s);
  }
}
