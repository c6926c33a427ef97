/**
 The worker's fallback over HTTP: a response body is split into lines, and each line that parses is written again
 and sent to every client socket.
 */
module WorkerBroadcasts {
  import opened Bytes
  import opened Wrappers
  import opened Json
  import opened Messages
  import opened Bridge
  import opened Framing

  /** A client's socket. Sending on one that is no longer open throws, and the worker only logs it. */
  class ClientSocket {
    const open: bool
    var received: seq<string>

    constructor (open: bool)
      ensures this.open == open && received == []
    {
      this.open, received := open, [];
    }

    method Send(data: string) returns (ok: bool)
      modifies this
      ensures ok == open && received == Heard(open, old(received), [data])
    {
      ok := open;
      if open {
        received := received + [data];
      }
    }
  }

  /** What a socket has received after `more` was sent to it. */
  function Heard(open: bool, before: seq<string>, more: seq<string>): seq<string> {
    if open then before + more else before
  }

  /** What is sent for these lines: each one that parses, written again by `hop`. */
  function Outgoing(hop: string -> Option<string>, lines: seq<string>): seq<string> {
    if lines == [] then []
    else Outgoing(hop, lines[..|lines| - 1]) + Sent(hop(lines[|lines| - 1]))
  }

  function Sent(line: Option<string>): seq<string> {
    match line
    case Some(data) => [data]
    case None => []
  }

  lemma OutgoingSnoc(hop: string -> Option<string>, lines: seq<string>, n: nat)
    requires n < |lines|
    ensures Outgoing(hop, lines[..n + 1]) == Outgoing(hop, lines[..n]) + Sent(hop(lines[n]))
  {
    assert lines[..n + 1][..n] == lines[..n];
  }

  predicate Distinct(clients: seq<ClientSocket>) {
    forall i, j | 0 <= i < j < |clients| :: clients[i] != clients[j]
  }

  /** `broadcastToWebSockets`: every open socket gets the text once, whichever of the others are closed. */
  method BroadcastToWebSockets(clients: seq<ClientSocket>, data: string)
    requires Distinct(clients)
    modifies clients
    ensures forall i | 0 <= i < |clients| ::
      clients[i].received == Heard(clients[i].open, old(clients[i].received), [data])
  {
    var n := 0;
    while n < |clients|
      invariant 0 <= n <= |clients|
      invariant forall i | 0 <= i < n ::
        clients[i].received == Heard(clients[i].open, old(clients[i].received), [data])
      invariant forall i | n <= i < |clients| :: clients[i].received == old(clients[i].received)
    {
      var _ := clients[n].Send(data);
      n := n + 1;
    }
  }

  /** The loop over the lines of a response body of `/read` or `/writeread`. */
  method BroadcastLines(hop: string -> Option<string>, lines: seq<string>, clients: seq<ClientSocket>)
    requires Distinct(clients)
    modifies clients
    ensures forall i | 0 <= i < |clients| ::
      clients[i].received == Heard(clients[i].open, old(clients[i].received), Outgoing(hop, lines))
  {
    var n := 0;
    ghost var out: seq<string> := [];
    while n < |lines|
      invariant 0 <= n <= |lines| && out == Outgoing(hop, lines[..n])
      invariant forall i | 0 <= i < |clients| ::
        clients[i].received == Heard(clients[i].open, old(clients[i].received), out)
    {
      OutgoingSnoc(hop, lines, n);
      var line := hop(lines[n]);
      if line.Some? {
        BroadcastToWebSockets(clients, line.value);
      }
      out := out + Sent(line);
      n := n + 1;
    }
    assert lines[..n] == lines;
  }

  method BroadcastBody(hop: string -> Option<string>, text: string, clients: seq<ClientSocket>)
    requires Distinct(clients)
    modifies clients
    ensures forall i | 0 <= i < |clients| ::
      clients[i].received == Heard(clients[i].open, old(clients[i].received), Outgoing(hop, WorkerLines(text)))
  {
    BroadcastLines(hop, WorkerLines(text), clients);
  }

  lemma {:induction false} OutgoingAll(hop: string -> Option<string>, lines: seq<string>)
    requires forall i | 0 <= i < |lines| :: hop(lines[i]).Some?
    ensures |Outgoing(hop, lines)| == |lines|
    ensures forall i | 0 <= i < |lines| :: Outgoing(hop, lines)[i] == hop(lines[i]).value
  {
    if lines != [] {
      OutgoingAll(hop, lines[..|lines| - 1]);
    }
  }

  /** `hop` does what the worker's parser and serialiser do, as far as numbers are exact in JavaScript. */
  ghost predicate Reserialises(hop: string -> Option<string>) {
    forall line: string :: HopsLike(hop, line)
  }

  predicate HopsLike(hop: string -> Option<string>, line: string) {
    match ParseObject(line)
    case None => hop(line) == None
    case Some(ms) => SafeMembers(ms) ==> hop(line) == Hop(line)
  }

  lemma LineThroughWorker(hop: string -> Option<string>, fs: seq<Frame>, i: nat)
    requires Reserialises(hop) && i < |fs| && (fs[i].ExitFrame? ==> SafeInt(fs[i].code))
    ensures |WorkerLines(Body(FrameLines(fs)))| == |fs|
    ensures var line := WorkerLines(Body(FrameLines(fs)))[i];
      hop(line).Some? && RelayRead(hop(line).value) == FrameEvent(fs[i])
  {
    HopFramingRoundTrip(fs, i);
    assert HopsLike(hop, WorkerLines(Body(FrameLines(fs)))[i]);
  }

  lemma FramesThroughWorker(hop: string -> Option<string>, fs: seq<Frame>)
    requires Reserialises(hop) && forall i | 0 <= i < |fs| :: fs[i].ExitFrame? ==> SafeInt(fs[i].code)
    ensures var out := Outgoing(hop, WorkerLines(Body(FrameLines(fs))));
      |out| == |fs| && forall i | 0 <= i < |fs| :: RelayRead(out[i]) == FrameEvent(fs[i])
  {
    var lines := WorkerLines(Body(FrameLines(fs)));
    if fs == [] {
      assert lines == [];
    }
    forall i | 0 <= i < |fs|
      ensures |lines| == |fs| && hop(lines[i]).Some? && RelayRead(hop(lines[i]).value) == FrameEvent(fs[i])
    {
      LineThroughWorker(hop, fs, i);
    }
    OutgoingAll(hop, lines);
  }

  /** `serializeMessage(parseMessage(line))`, with every number written as it was read. */
  function WorkerHop(line: string): Option<string> {
    match ParseObject(line)
    case None => None
    case Some(ms) => Some(RenderObject(Js, Assigned(ms)))
  }

  lemma WorkerHopReserialises()
    ensures Reserialises(WorkerHop)
  {
    forall line: string ensures HopsLike(WorkerHop, line) {
      if ParseObject(line).Some? && SafeMembers(ParseObject(line).value) {
        assert Hop(line) == WorkerHop(line);
      }
    }
  }

  /**
   A reply of the bridge reaches every open client whole: the relay reads the same bytes and the same exit code.  That
   holds of any `hop` that is exact where JavaScript numbers are, and of `WorkerHop` in particular.
   */
  lemma ReplyThroughWorker(hop: string -> Option<string>, data: seq<Byte>, exit: Option<Int64>)
    requires Reserialises(hop) && (exit.Some? ==> SafeInt(exit.value))
    ensures var fs := ReplyFrames(data, exit);
      var out := Outgoing(hop, WorkerLines(ReplyBody(data, exit)));
      |out| == |fs| && forall i | 0 <= i < |fs| :: RelayRead(out[i]) == FrameEvent(fs[i])
    ensures var fs := ReplyFrames(data, exit);
      var out := Outgoing(WorkerHop, WorkerLines(ReplyBody(data, exit)));
      |out| == |fs| && forall i | 0 <= i < |fs| :: RelayRead(out[i]) == FrameEvent(fs[i])
  {
    FramesThroughWorker(hop, ReplyFrames(data, exit));
    WorkerHopReserialises();
    FramesThroughWorker(WorkerHop, ReplyFrames(data, exit));
  }
}
