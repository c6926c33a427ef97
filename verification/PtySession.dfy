/**
 The bridge's session object.  Its methods are the program's critical sections and the handlers made of them; the
 ghost field `model` is the step system's state, which every method moves by the very actions it stands for.  So
 whatever `BridgeTheorems` says about reachable states holds of the object.
 */
module PtySessions {
  import opened Bytes
  import opened Wrappers
  import opened OutputBuffers
  import opened Bridge
  import opened BridgeInvariants
  import opened BridgeTheorems
  import opened Framing

  /** The state of the step system that the object's past steps have led to. */
  type Past = s: State | Reachable(s) ghost witness (assert Exec(Init(), []) == Some(Init()); Init())

  /** The registered clients and what every connection was sent so far. */
  predicate ClientsShown(cs: map<Id, Client>, clients: set<Id>, wire: map<Id, seq<Send>>) {
    && wire.Keys == cs.Keys
    && (forall c <- cs :: wire[c] == cs[c].sends && (cs[c].live <==> c in clients))
    && clients <= cs.Keys
  }

  /** A step that leaves buffer, verdict and clients alone changes nothing the object shows. */
  predicate Silent(a: Action) {
    !a.ReaderBuffer? && !a.Drain? && !a.Mark? && !a.StartChild? && !ClientsMove(a)
  }

  lemma SilentStep(s: State, a: Action)
    requires Enabled(s, a) && Silent(a) && s.up
    ensures var t := Apply(s, a);
      && t.up && t.buffer == s.buffer && t.running == s.running && t.exitCode == s.exitCode && t.clients == s.clients
      && t.chunks == s.chunks && t.segments == s.segments
  {
    Untouched(s, a);
    ClientsAlone(s, a);
  }

  /** The buffering step, with what it changes spelled out. */
  lemma BufferStep(s: State) returns (t: State)
    requires Enabled(s, ReaderBuffer) && Reachable(s)
    ensures Reachable(t) && t == Apply(s, ReaderBuffer)
    ensures t.buffer == Tail(s.buffer + s.reader.chunk, CAP) && t.chunks == s.chunks + [s.reader.chunk]
    ensures t.reader == Buffered(s.reader.chunk) && t.waiter == s.waiter && t.halted == s.halted && t.up == s.up
    ensures t.running == s.running && t.exitCode == s.exitCode && t.clients == s.clients && t.requests == s.requests
  {
    t := Apply(s, ReaderBuffer);
    ReachableNext(s, ReaderBuffer);
  }

  lemma AddedShown(s: State, conn: Id, clients: set<Id>, wire: map<Id, seq<Send>>)
    requires Enabled(s, AddClient(conn)) && ClientsShown(s.clients, clients, wire)
    ensures ClientsShown(Apply(s, AddClient(conn)).clients, clients + {conn}, wire[conn := []])
  {
  }

  lemma RemovedShown(s: State, conn: Id, clients: set<Id>, wire: map<Id, seq<Send>>)
    requires Enabled(s, RemoveClient(conn)) && ClientsShown(s.clients, clients, wire)
    ensures ClientsShown(Apply(s, RemoveClient(conn)).clients, clients - {conn}, wire)
  {
  }

  /** The action of one broadcast write, by the reader or by the goroutine that waits for the process. */
  function SendStep(byReader: bool, to: Id, ok: bool): Action {
    if byReader then ReaderSend(to, ok) else AnnounceSend(to, ok)
  }

  /** Where a broadcast stands: what it sends, and to whom it still has to. */
  predicate Broadcasting(s: State, byReader: bool, frame: Frame, todo: set<Id>) {
    !s.halted &&
    if byReader then s.reader.Sending? && s.reader.todo == todo && frame == DataFrame(s.reader.chunk)
    else s.waiter.Announcing? && s.waiter.todo == todo && frame == ExitFrame(s.waiter.code)
  }

  lemma SentShown(s: State, byReader: bool, to: Id, ok: bool, frame: Frame, todo: set<Id>, clients: set<Id>,
                  wire: map<Id, seq<Send>>)
    requires Broadcasting(s, byReader, frame, todo) && to in todo && to in wire
    requires ClientsShown(s.clients, clients, wire)
    ensures Enabled(s, SendStep(byReader, to, ok))
    ensures var t := Apply(s, SendStep(byReader, to, ok));
      && ClientsShown(t.clients, clients, wire[to := wire[to] + [Send(frame, ok)]])
      && Broadcasting(t, byReader, frame, todo - {to})
      && t.up == s.up && t.buffer == s.buffer && t.running == s.running && t.exitCode == s.exitCode
      && t.chunks == s.chunks && t.segments == s.segments
  {
    Untouched(s, SendStep(byReader, to, ok));
  }

  /** The step of one broadcast write, with what it changes spelled out. */
  lemma SentNext(s: State, byReader: bool, to: Id, ok: bool, frame: Frame, todo: set<Id>, clients: set<Id>,
                 wire: map<Id, seq<Send>>) returns (t: State)
    requires Reachable(s) && Broadcasting(s, byReader, frame, todo) && to in todo && to in wire
    requires ClientsShown(s.clients, clients, wire)
    ensures Reachable(t) && ClientsShown(t.clients, clients, wire[to := wire[to] + [Send(frame, ok)]])
    ensures Broadcasting(t, byReader, frame, todo - {to})
    ensures t.up == s.up && t.buffer == s.buffer && t.running == s.running && t.exitCode == s.exitCode
    ensures t.chunks == s.chunks && t.segments == s.segments
  {
    SentShown(s, byReader, to, ok, frame, todo, clients, wire);
    ReachableNext(s, SendStep(byReader, to, ok));
    t := Apply(s, SendStep(byReader, to, ok));
  }

  class PTYSession {
    const output: OutputBuffer
    var isRunning: bool
    var exitCode: Int64
    var clients: set<Id>
    /** What every connection was sent so far, removed ones included. */
    var wire: map<Id, seq<Send>>
    ghost var model: Past

    ghost predicate Valid()
      reads this, output, output.data.Backing()
    {
      && output.Valid() && output.Contents() == model.buffer
      && model.up && isRunning == model.running && exitCode == model.exitCode
      && ClientsShown(model.clients, clients, wire)
    }

    /** `initializeSession`, once the child runs. */
    constructor (caller: Id)
      ensures Valid() && fresh(output) && isRunning && clients == {} && output.Contents() == []
      ensures model == Apply(Apply(Init(), CallOnce(caller)), StartChild(true))
    {
      output := new OutputBuffer();
      isRunning, exitCode, clients, wire := true, 0, {}, map[];
      assert Exec(Init(), []) == Some(Init());
      ReachableNext(Init(), CallOnce(caller));
      ReachableNext(Apply(Init(), CallOnce(caller)), StartChild(true));
      model := Apply(Apply(Init(), CallOnce(caller)), StartChild(true));
    }

    /** The reader's `session.output.Write(data)`. */
    method BufferOutput(src: array<Byte>, n: nat)
      requires Valid() && n <= src.Length && src !in output.data.Backing()
      requires !model.halted && model.reader == Holding(src[..n])
      modifies this`model, output, output.data.Backing()
      ensures Valid() && model == Apply(old(model), ReaderBuffer)
      ensures output.Contents() == Tail(old(output.Contents()) + old(src[..n]), CAP)
      ensures !model.halted && model.reader == Buffered(old(src[..n]))
      ensures model.chunks == old(model.chunks) + [old(src[..n])]
      ensures src !in output.data.Backing() && wire == old(wire) && clients == old(clients)
    {
      ghost var next := BufferStep(model);
      WriteOutput(src, n);
      model := next;
    }

    method WriteOutput(src: array<Byte>, n: nat)
      requires output.Valid() && n <= src.Length && src !in output.data.Backing()
      modifies output, output.data.Backing()
      ensures output.Valid() && output.Contents() == Tail(old(output.Contents()) + old(src[..n]), CAP)
      ensures src !in output.data.Backing() && unchanged(this)
    {
      output.Write(src, n);
    }

    /** The waiter's critical section: flag down and exit code set in one step. */
    method MarkStopped(code: Int64)
      requires Valid() && Enabled(model, Mark) && model.waiter.code == code
      modifies this`model, this`isRunning, this`exitCode
      ensures Valid() && model == Apply(old(model), Mark)
      ensures !isRunning && exitCode == code
    {
      isRunning, exitCode := false, code;
      ReachableNext(model, Mark);
      model := Apply(model, Mark);
    }

    method AddClient(conn: Id)
      requires Valid() && Enabled(model, Action.AddClient(conn))
      modifies this`model, this`clients, this`wire
      ensures Valid() && model == Apply(old(model), Action.AddClient(conn))
      ensures clients == old(clients) + {conn} && wire == old(wire)[conn := []]
    {
      AddedShown(model, conn, clients, wire);
      clients, wire := clients + {conn}, wire[conn := []];
      ReachableNext(model, Action.AddClient(conn));
      model := Apply(model, Action.AddClient(conn));
    }

    method RemoveClient(conn: Id)
      requires Valid() && Enabled(model, Action.RemoveClient(conn))
      modifies this`model, this`clients
      ensures Valid() && model == Apply(old(model), Action.RemoveClient(conn))
      ensures clients == old(clients) - {conn}
    {
      RemovedShown(model, conn, clients, wire);
      clients := clients - {conn};
      ReachableNext(model, Action.RemoveClient(conn));
      model := Apply(model, Action.RemoveClient(conn));
    }

    /** The first half of a reply, under `session.mu`: the flag and the code as they are now. */
    method ReadFlag(req: Id) returns (running: bool, code: Int64)
      requires Valid() && Enabled(model, Snapshot(req))
      modifies this`model
      ensures Valid() && model == Apply(old(model), Snapshot(req)) && unchanged(output)
      ensures output.Contents() == old(output.Contents()) && running == isRunning && code == exitCode
      ensures Enabled(model, Drain(req)) && model.requests[req] == Flagged(running, code)
    {
      running, code := isRunning, exitCode;
      SilentStep(model, Snapshot(req));
      ReachableNext(model, Snapshot(req));
      model := Apply(model, Snapshot(req));
    }

    /**
     The second half, whatever the other goroutines and requests did since the flag was read: everything buffered by
     now is drained, and exit goes by the flag that was read then.
     */
    method DrainReply(req: Id, running: bool, code: Int64) returns (drained: Slice, messages: seq<Frame>)
      requires Valid() && Enabled(model, Drain(req)) && model.requests[req] == Flagged(running, code)
      modifies this`model, output
      ensures Valid() && model == Apply(old(model), Drain(req))
      ensures drained.InBounds() && drained.View() == old(output.Contents())
      ensures output.Contents() == [] && output.data.Backing() == {}
      ensures messages == ReplyFrames(drained.View(), if running then None else Some(code))
    {
      drained := output.Read();
      ReachableNext(model, Drain(req));
      model := Apply(model, Drain(req));
      messages := [];
      if drained.Len() > 0 {
        messages := messages + [DataFrame(drained.arr[drained.off..drained.off + drained.len])];
      }
      if !running {
        messages := messages + [ExitFrame(code)];
      }
    }

    /** A whole `/read` request. Its drain goes on record with the very bytes and code it answers. */
    method HandleRead(req: Id) returns (drained: Slice, messages: seq<Frame>)
      requires Valid() && Enabled(model, Arrive(req, ReadKind, []))
      modifies this`model, output
      ensures Valid() && drained.InBounds() && drained.View() == old(output.Contents()) && output.Contents() == []
      ensures var exit := if isRunning then None else Some(exitCode);
        && messages == ReplyFrames(drained.View(), exit)
        && req in model.requests && model.requests[req] == Answered(Lines(drained.View(), exit))
        && model.segments == old(model.segments) + [Drained(req, drained.View(), exit)]
    {
      SilentStep(model, Arrive(req, ReadKind, []));
      ReadRecorded(model, req);
      ReachableNext(model, Arrive(req, ReadKind, []));
      model := Apply(model, Arrive(req, ReadKind, []));
      var running, code := ReadFlag(req);
      drained, messages := DrainReply(req, running, code);
    }

    /**
     One write of a broadcast; `accepts` says which connections the network lets it through on.  An error is only
     logged, so the rest of the loop goes on either way.
     */
    method WriteTo(to: Id, frame: Frame, accepts: Id -> bool, ghost byReader: bool, ghost todo: set<Id>,
                   ghost was: map<Id, seq<Send>>, ghost done: set<Id>)
      requires Valid() && Broadcasting(model, byReader, frame, todo)
      requires to in todo && to in wire && to !in done && SentOnce(was, wire, frame, accepts, done)
      modifies this`model, this`wire
      ensures Valid() && Broadcasting(model, byReader, frame, todo - {to})
      ensures SentOnce(was, wire, frame, accepts, done + {to})
      ensures model.chunks == old(model.chunks) && model.segments == old(model.segments)
    {
      var ok := accepts(to);
      SentToOneMore(was, wire, frame, accepts, done, to);
      model := SentNext(model, byReader, to, ok, frame, todo, clients, wire);
      wire := wire[to := wire[to] + [Send(frame, ok)]];
    }

    /** `Broadcast`: under the read lock every registered client is written to once, whatever the others answer. */
    method Broadcast(frame: Frame, accepts: Id -> bool, ghost byReader: bool)
      requires Valid() && Broadcasting(model, byReader, frame, clients)
      modifies this`model, this`wire
      ensures Valid() && Broadcasting(model, byReader, frame, {}) && unchanged(output)
      ensures output.Contents() == old(output.Contents()) && clients == old(clients)
      ensures SentOnce(old(wire), wire, frame, accepts, clients)
      ensures model.chunks == old(model.chunks) && model.segments == old(model.segments)
    {
      var todo := clients;
      ghost var done: set<Id> := {};
      LiveIsWired();
      while todo != {}
        invariant todo + done == clients <= wire.Keys && todo !! done
        invariant Valid() && Broadcasting(model, byReader, frame, todo)
        invariant SentOnce(old(wire), wire, frame, accepts, done)
        invariant model.chunks == old(model.chunks) && model.segments == old(model.segments)
      {
        var to :| to in todo;
        WriteTo(to, frame, accepts, byReader, todo, old(wire), done);
        todo, done := todo - {to}, done + {to};
      }
      assert done == clients;
    }

    /** The rest of a turn of `readPTYOutput` after the read: the chunk is buffered first and broadcast then. */
    method HandleChunk(buf: array<Byte>, n: nat, accepts: Id -> bool)
      requires Valid() && n <= buf.Length && buf !in output.data.Backing()
      requires !model.halted && model.reader == Holding(buf[..n])
      modifies this`model, this`wire, output, output.data.Backing()
      ensures Valid() && buf !in output.data.Backing()
      ensures output.Contents() == Tail(old(output.Contents()) + old(buf[..n]), CAP)
      ensures model.chunks == old(model.chunks) + [old(buf[..n])]
      ensures SentOnce(old(wire), wire, DataFrame(old(buf[..n])), accepts, clients)
    {
      var chunk := buf[..n];
      BufferOutput(buf, n);
      BroadcastChunk(chunk, accepts);
    }

    method BroadcastChunk(chunk: seq<Byte>, accepts: Id -> bool)
      requires Valid() && !model.halted && model.reader == Buffered(chunk)
      modifies this`model, this`wire
      ensures Valid() && model.chunks == old(model.chunks) && unchanged(output)
      ensures output.Contents() == old(output.Contents()) && clients == old(clients)
      ensures SentOnce(old(wire), wire, DataFrame(chunk), accepts, clients)
    {
      Silently(ReaderLock);
      Broadcast(DataFrame(chunk), accepts, true);
      Silently(ReaderUnlock);
    }

    /** A step that changes nothing the object shows. */
    ghost method Silently(a: Action)
      requires Valid() && Enabled(model, a) && Silent(a)
      modifies this`model
      ensures Valid() && model == Apply(old(model), a) && unchanged(output)
      ensures output.Contents() == old(output.Contents()) && wire == old(wire) && clients == old(clients)
    {
      SilentStep(model, a);
      ReachableNext(model, a);
      model := Apply(model, a);
    }

    /** Whatever the object went through, what was drained or evicted and what it still buffers is the output. */
    lemma NothingLost()
      requires Valid()
      ensures Released(model.segments) + output.Contents() == Flatten(model.chunks)
      ensures clients <= wire.Keys && forall c <- clients :: OneRun(model, c, wire[c])
    {
      Conservation(model);
      LiveIsWired();
      forall c <- clients ensures OneRun(model, c, wire[c]) {
        ContiguousStreams(model, c);
      }
    }

    lemma LiveIsWired()
      requires Valid()
      ensures clients <= wire.Keys
    {
    }
  }

  /** What a client was sent is one run of chunks, from the first it was due to the last before its next. */
  predicate OneRun(m: State, c: Id, sends: seq<Send>)
    requires c in m.clients
  {
    && 0 <= m.clients[c].first <= NextChunk(m, c) <= |m.chunks|
    && DataOf(sends) == m.chunks[m.clients[c].first..NextChunk(m, c)]
  }

  lemma ReadRecorded(s: State, req: Id)
    requires Enabled(s, Arrive(req, ReadKind, [])) && s.up
    ensures var s1 := Apply(s, Arrive(req, ReadKind, []));
      && Enabled(s1, Snapshot(req)) && Enabled(Apply(s1, Snapshot(req)), Drain(req))
      && var t := Apply(Apply(s1, Snapshot(req)), Drain(req));
         var exit := if s.running then None else Some(s.exitCode);
         && req in t.requests && t.requests[req] == Answered(Lines(s.buffer, exit))
         && t.segments == s.segments + [Drained(req, s.buffer, exit)]
  {
  }

  /** The clients in `done` were sent the frame once, each with the answer of its own connection, any other nothing. */
  predicate SentOnce(before: map<Id, seq<Send>>, after: map<Id, seq<Send>>, frame: Frame, accepts: Id -> bool,
                     done: set<Id>)
  {
    && after.Keys == before.Keys
    && forall c <- after :: after[c] == before[c] + if c in done then [Send(frame, accepts(c))] else []
  }

  lemma SentToOneMore(before: map<Id, seq<Send>>, mid: map<Id, seq<Send>>, frame: Frame, accepts: Id -> bool,
                      done: set<Id>, to: Id)
    requires SentOnce(before, mid, frame, accepts, done) && to in mid && to !in done
    ensures SentOnce(before, mid[to := mid[to] + [Send(frame, accepts(to))]], frame, accepts, done + {to})
  {
    assert before[to] + [] == before[to];
  }
}
