/**
 The worker's streaming path end to end: the frames the bridge sends to the worker's socket, the worker's parse and
 broadcast of each, and what the relay writes to SSH.  The worker's socket is one more WebSocket client of the bridge.
 */
module StreamPaths {
  import opened Bytes
  import opened Wrappers
  import opened Messages
  import opened Framing
  import opened Bridge
  import opened BridgeInvariants
  import opened BridgeTheorems
  import opened WorkerBroadcasts

  /** The lines a client received: one for each frame whose write succeeded. */
  function SentLines(sends: seq<Send>): seq<string> {
    if sends == [] then []
    else
      var x := sends[|sends| - 1];
      SentLines(sends[..|sends| - 1]) + if x.ok then [FrameLine(x.frame)] else []
  }

  function OutputOf(e: Event): seq<Byte> {
    if e.Output? then e.bytes else []
  }

  /** All terminal output in these lines, as the relay decodes it. */
  function OutputIn(lines: seq<string>): seq<Byte> {
    if lines == [] then [] else OutputIn(lines[..|lines| - 1]) + OutputOf(RelayRead(lines[|lines| - 1]))
  }

  predicate ExitIn(lines: seq<string>) {
    exists i | 0 <= i < |lines| :: RelayRead(lines[i]).ExitSeen?
  }

  /** What the relay writes to SSH: it returns at the first exit. */
  function Shown(lines: seq<string>): seq<Byte> {
    if lines == [] then []
    else
      var before := lines[..|lines| - 1];
      Shown(before) + if ExitIn(before) then [] else OutputOf(RelayRead(lines[|lines| - 1]))
  }

  lemma {:induction false} ShownIsPrefix(lines: seq<string>)
    ensures Shown(lines) <= OutputIn(lines)
    ensures !ExitIn(lines) ==> Shown(lines) == OutputIn(lines)
  {
    if lines != [] {
      var before := lines[..|lines| - 1];
      ShownIsPrefix(before);
      if ExitIn(before) {
        var i :| 0 <= i < |before| && RelayRead(before[i]).ExitSeen?;
        assert lines[i] == before[i];
      }
    }
  }

  lemma {:induction false} PartIsPrefix(lines: seq<string>, n: nat)
    requires n <= |lines|
    ensures OutputIn(lines[..n]) <= OutputIn(lines)
  {
    if n == |lines| {
      assert lines[..n] == lines;
    } else {
      assert lines[..|lines| - 1][..n] == lines[..n];
      PartIsPrefix(lines[..|lines| - 1], n);
    }
  }

  /** After the first `n` lines SSH shows a part of `output`, from its start. */
  predicate ShowsPart(lines: seq<string>, n: nat, output: seq<Byte>)
    requires n <= |lines|
  {
    Shown(lines[..n]) <= OutputIn(lines[..n]) <= output
  }

  lemma OutputSnoc(lines: seq<string>, line: string)
    ensures OutputIn(lines + [line]) == OutputIn(lines) + OutputOf(RelayRead(line))
  {
    assert (lines + [line])[..|lines|] == lines;
  }

  lemma OutgoingOne(hop: string -> Option<string>, lines: seq<string>, line: string)
    ensures Outgoing(hop, lines + [line]) == Outgoing(hop, lines) + Sent(hop(line))
  {
    assert (lines + [line])[..|lines|] == lines;
  }

  predicate SafeFrame(f: Frame) {
    f.ExitFrame? ==> SafeInt(f.code)
  }

  /** One frame through the worker: the relay reads what the bridge sent. */
  lemma FrameThroughWorker(hop: string -> Option<string>, f: Frame)
    requires Reserialises(hop) && SafeFrame(f)
    ensures hop(FrameLine(f)).Some? && RelayRead(hop(FrameLine(f)).value) == FrameEvent(f)
  {
    FramingRoundTrip([f]);
    LineThroughWorker(hop, [f], 0);
  }

  /** The lines that reach the relay carry exactly the chunks the worker's socket received. */
  lemma {:induction false} StreamCarries(hop: string -> Option<string>, sends: seq<Send>)
    requires Reserialises(hop) && forall i | 0 <= i < |sends| :: SafeFrame(sends[i].frame)
    ensures OutputIn(Outgoing(hop, SentLines(sends))) == Flatten(Delivered(sends))
  {
    if sends != [] {
      var before, x := sends[..|sends| - 1], sends[|sends| - 1];
      StreamCarries(hop, before);
      OneMoreSend(hop, SentLines(before), Delivered(before), x);
    }
  }

  lemma OneMoreSend(hop: string -> Option<string>, lines: seq<string>, got: seq<seq<Byte>>, x: Send)
    requires Reserialises(hop) && SafeFrame(x.frame) && OutputIn(Outgoing(hop, lines)) == Flatten(got)
    ensures OutputIn(Outgoing(hop, lines + if x.ok then [FrameLine(x.frame)] else []))
         == Flatten(got + if x.ok && x.frame.DataFrame? then [x.frame.bytes] else [])
  {
    assert lines + [] == lines && got + [] == got;
    if x.ok {
      FrameThroughWorker(hop, x.frame);
      LineCarried(hop, lines, x.frame);
      if x.frame.DataFrame? {
        FlattenSnoc(got, x.frame.bytes);
      } else {
        assert Flatten(got) + [] == Flatten(got);
      }
    }
  }

  lemma LineCarried(hop: string -> Option<string>, lines: seq<string>, f: Frame)
    requires hop(FrameLine(f)).Some? && RelayRead(hop(FrameLine(f)).value) == FrameEvent(f)
    ensures OutputIn(Outgoing(hop, lines + [FrameLine(f)]))
         == OutputIn(Outgoing(hop, lines)) + if f.DataFrame? then f.bytes else []
  {
    var data := hop(FrameLine(f)).value;
    OutgoingOne(hop, lines, FrameLine(f));
    OutputSnoc(Outgoing(hop, lines), data);
  }

  lemma SafeSends(s: State, c: Id)
    requires Reachable(s) && c in s.clients && SafeInt(s.exitCode)
    ensures forall i | 0 <= i < |s.clients[c].sends| :: SafeFrame(s.clients[c].sends[i].frame)
  {
    ReachableInv(s);
    assert ClientExit(s, c);
  }

  /**
   In every reachable state of the bridge, for a stream socket with no write errors: what the worker passes on to the
   relay carries one contiguous, chunk-aligned stretch of the PTY output, from the first chunk after the socket was
   registered to the last it was sent.  However many of these lines have arrived so far, SSH shows the stretch from its
   start; when all have, it shows it up to the exit message, and all of it before one.
   */
  lemma StreamEndToEnd(hop: string -> Option<string>, s: State, c: Id)
    requires Reserialises(hop) && Reachable(s) && c in s.clients && SafeInt(s.exitCode)
    requires forall x <- s.clients[c].sends :: x.ok
    ensures 0 <= s.clients[c].first <= NextChunk(s, c) <= |s.chunks|
    ensures var lines := Outgoing(hop, SentLines(s.clients[c].sends));
      var from, to := |Flatten(s.chunks[..s.clients[c].first])|, |Flatten(s.chunks[..NextChunk(s, c)])|;
      && from <= to <= |Flatten(s.chunks)|
      && OutputIn(lines) == Flatten(s.chunks)[from..to]
      && (forall n | 0 <= n <= |lines| :: ShowsPart(lines, n, Flatten(s.chunks)[from..to]))
      && (!ExitIn(lines) ==> Shown(lines) == Flatten(s.chunks)[from..to])
  {
    ContiguousStreams(s, c);
    SafeSends(s, c);
    StreamCarries(hop, s.clients[c].sends);
    var lines := Outgoing(hop, SentLines(s.clients[c].sends));
    ShownIsPrefix(lines);
    forall n | 0 <= n <= |lines| ensures ShowsPart(lines, n, OutputIn(lines)) {
      PartIsPrefix(lines, n);
      ShownIsPrefix(lines[..n]);
    }
  }

  /** The stream ends with the chunks from `n` on, if it was registered before them. */
  lemma StreamTail(chunks: seq<seq<Byte>>, first: nat, n: nat, to: nat)
    requires first <= n <= to <= |chunks|
    ensures Flatten(chunks[first..to]) == Flatten(chunks[first..n]) + Flatten(chunks[n..to])
  {
    assert chunks[first..to] == chunks[first..n] + chunks[n..to];
    FlattenAppend(chunks[first..n], chunks[n..to]);
  }

  /**
   The worker's read over HTTP after it has connected.  When the drain is taken while the socket is registered, and the
   socket has been sent all chunks up to there, the drained bytes and the end of the stream leave no gap: together with
   what had been released before they are all the output up to the socket's last chunk.
   */
  lemma HandoverEndToEnd(hop: string -> Option<string>, s: State, req: Id, t: State, c: Id)
    requires Reserialises(hop) && Reachable(s) && Enabled(s, Drain(req)) && Leads(Apply(s, Drain(req)), t)
    requires c in s.clients && s.clients[c].live && SafeInt(t.exitCode)
    requires c in t.clients && (forall x <- t.clients[c].sends :: x.ok) && |s.chunks| <= NextChunk(t, c)
    ensures NextChunk(t, c) <= |t.chunks|
    ensures var output := OutputIn(Outgoing(hop, SentLines(t.clients[c].sends)));
      var rest := Flatten(t.chunks[|s.chunks|..NextChunk(t, c)]);
      && |rest| <= |output| && output[|output| - |rest|..] == rest
      && Released(s.segments) + s.buffer + rest == Flatten(t.chunks[..NextChunk(t, c)])
  {
    NoGapHandover(s, req, t, c);
    ReachableInv(s);
    DrainThenRun(s, req, t);
    HandoverStream(hop, s, t, c);
  }

  lemma HandoverStream(hop: string -> Option<string>, s: State, t: State, c: Id)
    requires Reserialises(hop) && Inv(s) && Inv(t) && Remembers(s, t) && c in s.clients && SafeInt(t.exitCode)
    requires c in t.clients && (forall x <- t.clients[c].sends :: x.ok)
    requires |s.chunks| <= NextChunk(t, c) <= |t.chunks|
    ensures var output := OutputIn(Outgoing(hop, SentLines(t.clients[c].sends)));
      var rest := Flatten(t.chunks[|s.chunks|..NextChunk(t, c)]);
      |rest| <= |output| && output[|output| - |rest|..] == rest
  {
    assert SameClient(s, t, c) && ClientStream(s, c) && ClientStream(t, c) && ClientExit(t, c);
    StreamCarries(hop, t.clients[c].sends);
    DeliveredAll(t.clients[c].sends);
    StreamTail(t.chunks, t.clients[c].first, |s.chunks|, NextChunk(t, c));
  }
}
