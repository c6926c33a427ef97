/** What every step of the bridge keeps. The theorems drawn from it are in `BridgeTheorems`. */
module BridgeInvariants {
  import opened Bytes
  import opened Wrappers
  import opened OutputBuffers
  import opened Bridge

  // ---------- reading the history ----------

  /** All bytes that have left the buffer, in the order they left it. */
  function Released(segs: seq<Segment>): seq<Byte> {
    if segs == [] then [] else Released(segs[..|segs| - 1]) + segs[|segs| - 1].bytes
  }

  lemma ReleasedSnoc(segs: seq<Segment>, x: Segment)
    ensures Released(segs + [x]) == Released(segs) + x.bytes
  {
    assert (segs + [x])[..|segs|] == segs;
  }

  /** The chunks a client was sent, whether or not the write succeeded. */
  function DataOf(sends: seq<Send>): seq<seq<Byte>> {
    if sends == [] then []
    else
      var x := sends[|sends| - 1].frame;
      DataOf(sends[..|sends| - 1]) + if x.DataFrame? then [x.bytes] else []
  }

  function Exits(sends: seq<Send>): nat {
    if sends == [] then 0
    else Exits(sends[..|sends| - 1]) + if sends[|sends| - 1].frame.ExitFrame? then 1 else 0
  }

  function DataAfterExit(sends: seq<Send>): nat {
    if sends == [] then 0
    else
      var before := sends[..|sends| - 1];
      DataAfterExit(before) + if sends[|sends| - 1].frame.DataFrame? && Exits(before) > 0 then 1 else 0
  }

  lemma SendSnoc(sends: seq<Send>, x: Send)
    ensures DataOf(sends + [x]) == DataOf(sends) + if x.frame.DataFrame? then [x.frame.bytes] else []
    ensures Exits(sends + [x]) == Exits(sends) + if x.frame.ExitFrame? then 1 else 0
    ensures DataAfterExit(sends + [x])
         == DataAfterExit(sends) + if x.frame.DataFrame? && Exits(sends) > 0 then 1 else 0
  {
    assert (sends + [x])[..|sends|] == sends;
  }

  /** There is always an id that was not used. */
  lemma {:induction false} FreshId(ids: set<Id>) returns (id: Id)
    ensures forall i <- ids :: i < id
  {
    if ids == {} {
      id := 0;
    } else {
      var i :| i in ids;
      var below := FreshId(ids - {i});
      id := if i < below then below else i + 1;
      assert forall j <- ids :: j == i || j in ids - {i};
    }
  }

  // ---------- the invariant ----------

  /** The first caller's error is reported to it alone; every later caller trips over the missing session. */
  ghost predicate OneError(s: State) {
    exists i <- s.inits :: s.inits[i].InitError? && forall j <- s.inits :: j != i ==> s.inits[j].Panicked?
  }

  predicate NothingYet(s: State) {
    && s.reader.ReaderUnborn? && s.waiter.WaiterUnborn? && s.children == 0
    && s.buffer == [] && s.chunks == [] && s.segments == [] && s.clients == map[] && s.ptyIn == []
    && forall r <- s.requests :: s.requests[r] == Answered(Rejected)
  }

  ghost predicate LifeInv(s: State) {
    && (s.up ==> s.once.Finished? && s.children == 1 && !s.reader.ReaderUnborn? && !s.waiter.WaiterUnborn?)
    && (!s.up ==> NothingYet(s))
    && (!s.once.Finished? ==> s.inits == map[])
    && (s.up ==> forall i <- s.inits :: s.inits[i].Ready?)
    && (s.once.Finished? && !s.up ==> OneError(s))
    && (s.running <==> s.waiter.Waiting? || s.waiter.Reaped?)
    && (s.done <==> s.waiter.DoneClosed? || s.waiter.Announcing? || s.waiter.Announced?)
    && (s.done || s.waiter.Marked? ==> s.exitCode == s.waiter.code)
  }

  predicate BufferInv(s: State) {
    && Released(s.segments) + s.buffer == Flatten(s.chunks)
    && |s.buffer| <= CAP
    && (s.segments != [] && s.segments[|s.segments| - 1].Evicted? ==> |s.buffer| == CAP)
    && (s.reader.Holding? || s.reader.Buffered? || s.reader.Sending? ==> 0 < |s.reader.chunk| <= READ_SIZE)
    && forall k | 0 <= k < |s.chunks| :: 0 < |s.chunks[k]| <= READ_SIZE
  }

  predicate ExitSegment(s: State, i: nat)
    requires i < |s.segments|
  {
    s.segments[i].Drained? && s.segments[i].exit.Some? ==>
      && s.segments[i].exit.value == s.exitCode
      && s.stopMark <= |Released(s.segments[..i + 1])|
  }

  predicate AnsweredExit(s: State, r: Id)
    requires r in s.requests
  {
    var q := s.requests[r];
    q.Answered? && q.reply.Lines? && q.reply.exit.Some? ==> s.up && !s.running && q.reply.exit.value == s.exitCode
  }

  predicate VerdictInv(s: State) {
    && s.stopMark <= |Flatten(s.chunks)|
    && (forall r <- s.requests :: s.requests[r].Flagged? && !s.requests[r].running ==>
         s.up && !s.running && s.requests[r].code == s.exitCode)
    && (forall r <- s.requests :: AnsweredExit(s, r))
    && (forall i | 0 <= i < |s.segments| :: s.segments[i].Drained? && s.segments[i].exit.Some? ==> s.up && !s.running)
    && (forall i | 0 <= i < |s.segments| :: ExitSegment(s, i))
  }

  /** Every drain in the history is the answer of its own request, and of no other. */
  predicate DrainInv(s: State) {
    && (forall i | 0 <= i < |s.segments| :: s.segments[i].Drained? ==>
         s.segments[i].owner in s.requests
         && s.requests[s.segments[i].owner] == Answered(Lines(s.segments[i].bytes, s.segments[i].exit)))
    && (forall i, j | 0 <= i < j < |s.segments| :: s.segments[i].Drained? && s.segments[j].Drained? ==>
         s.segments[i].owner != s.segments[j].owner)
    && (forall r <- s.requests :: HasDrain(s, r))
  }

  /** The converse: every answered read is on record. */
  predicate HasDrain(s: State, r: Id)
    requires r in s.requests
  {
    var q := s.requests[r];
    q.Answered? && q.reply.Lines? ==> Drained(r, q.reply.data, q.reply.exit) in s.segments
  }

  predicate ClientStream(s: State, c: Id)
    requires c in s.clients
  {
    var cl := s.clients[c];
    && 0 <= cl.first <= NextChunk(s, c) <= |s.chunks|
    && DataOf(cl.sends) == s.chunks[cl.first..NextChunk(s, c)]
  }

  predicate StreamInv(s: State) {
    && (s.reader.Buffered? || s.reader.Sending? ==> s.chunks != [] && s.chunks[|s.chunks| - 1] == s.reader.chunk)
    && (s.reader.Sending? ==> s.reader.todo <= Live(s))
    && (s.waiter.Announcing? ==> s.waiter.todo <= Live(s))
    && forall c <- s.clients :: ClientStream(s, c)
  }

  /** How many more data frames the reader may still send to `c` once `done` is closed. */
  function Budget(s: State, c: Id): nat {
    if s.reader.InRead? || s.reader.Holding? || s.reader.Buffered? || (s.reader.Sending? && c in s.reader.todo)
    then 1 else 0
  }

  predicate ClientExit(s: State, c: Id)
    requires c in s.clients
  {
    var sends := s.clients[c].sends;
    && Exits(sends) <= 1
    && (Exits(sends) > 0 ==> s.waiter.Announcing? || s.waiter.Announced?)
    && (s.waiter.Announcing? && c in s.waiter.todo ==> Exits(sends) == 0)
    && (Exits(sends) == 0 ==> DataAfterExit(sends) == 0)
    && (Exits(sends) > 0 ==> DataAfterExit(sends) + Budget(s, c) <= 1)
    && forall i | 0 <= i < |sends| :: sends[i].frame.ExitFrame? ==> s.done && sends[i].frame.code == s.exitCode
  }

  predicate ExitInv(s: State) {
    && (s.done ==> s.doneMark <= |s.chunks| <= s.doneMark + 1)
    && (s.done && (s.reader.InRead? || s.reader.Holding?) ==> |s.chunks| == s.doneMark)
    && forall c <- s.clients :: ClientExit(s, c)
  }

  ghost predicate Inv(s: State) {
    LifeInv(s) && BufferInv(s) && VerdictInv(s) && DrainInv(s) && StreamInv(s) && ExitInv(s)
  }

  // ---------- one step ----------

  lemma LifeKept(s: State, a: Action)
    requires Enabled(s, a) && LifeInv(s)
    ensures LifeInv(Apply(s, a))
  {
    var t := Apply(s, a);
    match a {
      case StartChild(started) =>
        if !started {
          assert t.inits[s.once.owner].InitError?;
        }
      case CallOnce(caller) =>
        if s.once.Finished? && !s.up {
          var i :| i in s.inits && s.inits[i].InitError? && forall j <- s.inits :: j != i ==> s.inits[j].Panicked?;
          assert t.inits[i].InitError?;
        }
      case _ =>
    }
  }

  lemma BufferKept(s: State, a: Action)
    requires Enabled(s, a) && LifeInv(s) && BufferInv(s)
    ensures BufferInv(Apply(s, a))
  {
    match a {
      case ReaderBuffer => BufferChunkKept(s, s.reader.chunk);
      case Drain(req) =>
        var exit := if s.requests[req].running then None else Some(s.requests[req].code);
        ReleasedSnoc(s.segments, Drained(req, s.buffer, exit));
      case _ =>
    }
  }

  lemma BufferChunkKept(s: State, chunk: seq<Byte>)
    requires Released(s.segments) + s.buffer == Flatten(s.chunks)
    requires s.segments != [] && s.segments[|s.segments| - 1].Evicted? ==> |s.buffer| == CAP
    ensures var t := BufferChunk(s, chunk);
      && Released(t.segments) + t.buffer == Flatten(t.chunks)
      && (t.segments != [] && t.segments[|t.segments| - 1].Evicted? ==> |t.buffer| == CAP)
  {
    var all := s.buffer + chunk;
    var kept := Tail(all, CAP);
    var cut := all[..|all| - |kept|];
    FlattenSnoc(s.chunks, chunk);
    assert cut + kept == all;
    CutRebuilds(s.segments, s.buffer, chunk, cut, kept, BufferChunk(s, chunk).segments);
  }

  lemma CutRebuilds(segs: seq<Segment>, buffer: seq<Byte>, chunk: seq<Byte>, cut: seq<Byte>, kept: seq<Byte>,
                    next: seq<Segment>)
    requires cut + kept == buffer + chunk
    requires next == if cut != [] then segs + [Evicted(cut)] else segs
    ensures Released(next) + kept == (Released(segs) + buffer) + chunk
  {
    ReleasedSnoc(segs, Evicted(cut));
    Regroup(Released(segs), buffer, chunk, cut, kept);
  }

  lemma Regroup(before: seq<Byte>, buffer: seq<Byte>, chunk: seq<Byte>, cut: seq<Byte>, kept: seq<Byte>)
    requires cut + kept == buffer + chunk
    ensures (before + cut) + kept == (before + buffer) + chunk
    ensures cut == [] ==> before + kept == (before + buffer) + chunk
  {
    assert (before + cut) + kept == before + (cut + kept);
    assert (before + buffer) + chunk == before + (buffer + chunk);
    if cut == [] {
      assert cut + kept == kept;
    }
  }

  /** Only buffering and draining touch the release history. */
  predicate SameHistory(s: State, a: Action, t: State) {
    && (!a.ReaderBuffer? && !a.Drain? ==> t.segments == s.segments && t.buffer == s.buffer)
    && (!a.ReaderBuffer? ==> t.chunks == s.chunks)
    && s.chunks <= t.chunks && s.segments <= t.segments
  }

  /** Only `Mark` sets the verdict. */
  predicate SameVerdict(s: State, a: Action, t: State) {
    && (!a.Mark? ==> t.stopMark == s.stopMark && t.exitCode == s.exitCode)
    && (!a.Mark? && !a.StartChild? ==> t.running == s.running)
    && (s.up ==> t.up)
  }

  lemma ChunksUntouched(s: State, a: Action)
    requires Enabled(s, a)
    ensures if a.ReaderBuffer? then s.chunks <= Apply(s, a).chunks else Apply(s, a).chunks == s.chunks
  {
  }

  lemma HistoryUntouched(s: State, a: Action)
    requires Enabled(s, a)
    ensures SameHistory(s, a, Apply(s, a))
  {
    ChunksUntouched(s, a);
    if a.ReaderBuffer? || a.Drain? {
      assert s.segments <= Apply(s, a).segments;
    } else {
      assert Apply(s, a).segments == s.segments && Apply(s, a).buffer == s.buffer;
    }
  }

  lemma MarksUntouched(s: State, a: Action)
    requires Enabled(s, a)
    ensures !a.Mark? ==> Apply(s, a).stopMark == s.stopMark && Apply(s, a).exitCode == s.exitCode
  {
  }

  lemma FlagsUntouched(s: State, a: Action)
    requires Enabled(s, a)
    ensures !a.StartChild? ==> Apply(s, a).up == s.up
    ensures !a.Mark? && !a.StartChild? ==> Apply(s, a).running == s.running
  {
  }

  lemma VerdictUntouched(s: State, a: Action)
    requires Enabled(s, a)
    ensures SameVerdict(s, a, Apply(s, a))
  {
    MarksUntouched(s, a);
    FlagsUntouched(s, a);
  }

  lemma Untouched(s: State, a: Action)
    requires Enabled(s, a)
    ensures SameHistory(s, a, Apply(s, a)) && SameVerdict(s, a, Apply(s, a))
  {
    HistoryUntouched(s, a);
    VerdictUntouched(s, a);
  }

  predicate RequestMoves(a: Action) {
    a.Arrive? || a.RejectBody? || a.PtyWrite? || a.Snapshot? || a.Drain?
  }

  lemma RequestsAlone(s: State, a: Action)
    requires Enabled(s, a)
    ensures !RequestMoves(a) ==> Apply(s, a).requests == s.requests
  {
  }

  lemma VerdictKept(s: State, a: Action)
    requires Enabled(s, a) && LifeInv(s) && BufferInv(s) && VerdictInv(s)
    ensures VerdictInv(Apply(s, a))
  {
    var t := Apply(s, a);
    BufferKept(s, a);
    RequestVerdictKept(s, a);
    forall i | 0 <= i < |t.segments|
      ensures ExitSegment(t, i)
      ensures t.segments[i].Drained? && t.segments[i].exit.Some? ==> t.up && !t.running
    {
      ExitSegmentKept(s, a, t, i);
    }
  }

  lemma RequestVerdictKept(s: State, a: Action)
    requires Enabled(s, a) && LifeInv(s) && VerdictInv(s)
    ensures var t := Apply(s, a);
      && t.stopMark <= |Flatten(t.chunks)|
      && (forall r <- t.requests :: t.requests[r].Flagged? && !t.requests[r].running ==>
           t.up && !t.running && t.requests[r].code == t.exitCode)
      && (forall r <- t.requests :: AnsweredExit(t, r))
  {
    var t := Apply(s, a);
    Untouched(s, a);
    if a.ReaderBuffer? {
      FlattenSnoc(s.chunks, s.reader.chunk);
    }
    forall r <- t.requests ensures AnsweredExit(t, r) {
      assert r in s.requests ==> AnsweredExit(s, r);
    }
  }

  lemma ExitSegmentKept(s: State, a: Action, t: State, i: nat)
    requires Enabled(s, a) && t == Apply(s, a) && LifeInv(s) && VerdictInv(s) && BufferInv(t) && i < |t.segments|
    ensures ExitSegment(t, i)
    ensures t.segments[i].Drained? && t.segments[i].exit.Some? ==> t.up && !t.running
  {
    Untouched(s, a);
    if i < |s.segments| {
      OldExitSegment(s, a, i);
    } else if a.Drain? {
      NewExitSegment(s, a.req);
    }
  }

  lemma OldExitSegment(s: State, a: Action, i: nat)
    requires Enabled(s, a) && LifeInv(s) && VerdictInv(s) && i < |s.segments|
    ensures var t := Apply(s, a);
      && i < |t.segments| && ExitSegment(t, i)
      && (t.segments[i].Drained? && t.segments[i].exit.Some? ==> t.up && !t.running)
  {
    var t := Apply(s, a);
    Untouched(s, a);
    assert t.segments[i] == s.segments[i];
    assert ExitSegment(s, i);
    assert t.segments[..i + 1] == s.segments[..i + 1];
  }

  /** A drain empties the buffer, so whatever was buffered before the mark has been released by then. */
  lemma NewExitSegment(s: State, req: Id)
    requires Enabled(s, Drain(req)) && VerdictInv(s) && BufferInv(Apply(s, Drain(req)))
    ensures var t := Apply(s, Drain(req));
      && |t.segments| == |s.segments| + 1 && ExitSegment(t, |s.segments|)
      && (t.segments[|s.segments|].exit.Some? ==> t.up && !t.running)
  {
    var t := Apply(s, Drain(req));
    assert t.segments[..|s.segments| + 1] == t.segments;
    assert Released(t.segments) + [] == Flatten(s.chunks);
  }

  lemma DrainKept(s: State, a: Action)
    requires Enabled(s, a) && LifeInv(s) && DrainInv(s)
    ensures DrainInv(Apply(s, a))
  {
    var t := Apply(s, a);
    forall r <- t.requests ensures HasDrain(t, r) {
      HasDrainKept(s, a, r);
    }
  }

  lemma HasDrainKept(s: State, a: Action, r: Id)
    requires Enabled(s, a) && LifeInv(s) && DrainInv(s) && r in Apply(s, a).requests
    ensures HasDrain(Apply(s, a), r)
  {
    var t := Apply(s, a);
    Untouched(s, a);
    if a == Drain(r) {
      assert t.segments[|t.segments| - 1] == Drained(r, t.requests[r].reply.data, t.requests[r].reply.exit);
    } else {
      assert r in s.requests ==> HasDrain(s, r);
    }
  }

  lemma StreamKept(s: State, a: Action)
    requires Enabled(s, a) && LifeInv(s) && StreamInv(s)
    ensures StreamInv(Apply(s, a))
  {
    var t := Apply(s, a);
    forall c <- t.clients ensures ClientStream(t, c) {
      if c in s.clients {
        StreamKeptFor(s, a, c);
      } else {
        assert a == AddClient(c);
      }
    }
    BroadcastersKept(s, a);
  }

  predicate ClientsMove(a: Action) {
    a.AddClient? || a.RemoveClient? || a.ReaderSend? || a.AnnounceSend? || a.SendPong?
  }

  lemma ClientsAlone(s: State, a: Action)
    requires Enabled(s, a)
    ensures !ClientsMove(a) ==> Apply(s, a).clients == s.clients
  {
  }

  /** Only a removal ends a registration, and no broadcast is under way then. */
  lemma LiveStays(s: State, a: Action)
    requires Enabled(s, a)
    ensures if a.RemoveClient? then ClientsUnlocked(Apply(s, a)) else Live(s) <= Live(Apply(s, a))
  {
    ClientsAlone(s, a);
    if ClientsMove(a) {
      LiveMoved(s, a);
    }
  }

  lemma LiveMoved(s: State, a: Action)
    requires Enabled(s, a) && ClientsMove(a)
    ensures if a.RemoveClient? then ClientsUnlocked(Apply(s, a)) else Live(s) <= Live(Apply(s, a))
  {
  }

  lemma ReaderTodoShrinks(s: State, a: Action)
    requires Enabled(s, a) && LifeInv(s)
    ensures var t := Apply(s, a);
      t.reader.Sending? ==> t.reader.todo <= if s.reader.Sending? then s.reader.todo else Live(s)
  {
  }

  lemma WaiterTodoShrinks(s: State, a: Action)
    requires Enabled(s, a) && LifeInv(s)
    ensures var t := Apply(s, a);
      t.waiter.Announcing? ==> t.waiter.todo <= if s.waiter.Announcing? then s.waiter.todo else Live(s)
  {
  }

  lemma HeldIsBuffered(s: State, a: Action)
    requires Enabled(s, a) && LifeInv(s) && StreamInv(s)
    ensures Held(Apply(s, a))
  {
    ReaderAlone(s, a);
    if ReaderMoves(a) {
      HeldMoved(s, a);
    }
  }

  /** A chunk in the reader's hands that is due to be broadcast is the one buffered last. */
  predicate Held(s: State) {
    s.reader.Buffered? || s.reader.Sending? ==> s.chunks != [] && s.chunks[|s.chunks| - 1] == s.reader.chunk
  }

  lemma HeldMoved(s: State, a: Action)
    requires Enabled(s, a) && ReaderMoves(a) && Held(s)
    ensures Held(Apply(s, a))
  {
  }

  lemma BroadcastersKept(s: State, a: Action)
    requires Enabled(s, a) && LifeInv(s) && StreamInv(s)
    ensures var t := Apply(s, a);
      && (t.reader.Buffered? || t.reader.Sending? ==>
            t.chunks != [] && t.chunks[|t.chunks| - 1] == t.reader.chunk)
      && (t.reader.Sending? ==> t.reader.todo <= Live(t))
      && (t.waiter.Announcing? ==> t.waiter.todo <= Live(t))
  {
    LiveStays(s, a);
    ReaderTodoShrinks(s, a);
    WaiterTodoShrinks(s, a);
    HeldIsBuffered(s, a);
  }

  lemma StreamKeptFor(s: State, a: Action, c: Id)
    requires Enabled(s, a) && LifeInv(s) && StreamInv(s) && c in s.clients
    ensures c in Apply(s, a).clients && ClientStream(Apply(s, a), c)
  {
    assert ClientStream(s, c);
    Untouched(s, a);
    SendsOf(s, a, c);
    if a.ReaderSend? && a.to == c {
      StreamGrows(s, Apply(s, a), c);
    } else {
      NextKept(s, a, c);
      StreamStands(s, Apply(s, a), c);
    }
  }

  lemma StreamGrows(s: State, t: State, c: Id)
    requires c in s.clients && ClientStream(s, c) && c in t.clients && t.chunks == s.chunks
    requires s.chunks != [] && NextChunk(s, c) == |s.chunks| - 1 && NextChunk(t, c) == |s.chunks|
    requires t.clients[c].first == s.clients[c].first
    requires exists x: Send :: x.frame == DataFrame(s.chunks[|s.chunks| - 1])
               && t.clients[c].sends == s.clients[c].sends + [x]
    ensures ClientStream(t, c)
  {
    var x: Send :| x.frame == DataFrame(s.chunks[|s.chunks| - 1]) && t.clients[c].sends == s.clients[c].sends + [x];
    SendSnoc(s.clients[c].sends, x);
    var first := s.clients[c].first;
    assert s.chunks[first..] == s.chunks[first..|s.chunks| - 1] + [s.chunks[|s.chunks| - 1]];
    assert s.chunks[first..|s.chunks|] == s.chunks[first..];
  }

  lemma StreamStands(s: State, t: State, c: Id)
    requires c in s.clients && ClientStream(s, c) && c in t.clients && s.chunks <= t.chunks
    requires NextChunk(t, c) == NextChunk(s, c) && t.clients[c].first == s.clients[c].first
    requires t.clients[c].sends == s.clients[c].sends
      || exists x: Send :: !x.frame.DataFrame? && t.clients[c].sends == s.clients[c].sends + [x]
    ensures ClientStream(t, c)
  {
    if t.clients[c].sends != s.clients[c].sends {
      var x: Send :| !x.frame.DataFrame? && t.clients[c].sends == s.clients[c].sends + [x];
      SendSnoc(s.clients[c].sends, x);
    }
    var first, next := s.clients[c].first, NextChunk(s, c);
    assert t.chunks[first..next] == s.chunks[first..next];
  }

  /** How one step extends a client's frame log. */
  lemma SendsOf(s: State, a: Action, c: Id)
    requires Enabled(s, a) && c in s.clients
    ensures var t := Apply(s, a);
      && c in t.clients && t.clients[c].first == s.clients[c].first
      && var sends := s.clients[c].sends;
         t.clients[c].sends ==
           if a.ReaderSend? && a.to == c then sends + [Send(DataFrame(s.reader.chunk), a.ok)]
           else if a.AnnounceSend? && a.to == c then sends + [Send(ExitFrame(s.waiter.code), a.ok)]
           else if a.SendPong? && a.conn == c then sends + [Send(PongFrame, a.ok)]
           else sends
  {
    match a {
      case ReaderSend(_, _) =>
      case AnnounceSend(_, _) =>
      case SendPong(_, _) =>
      case AddClient(_) =>
      case RemoveClient(_) =>
      case _ => assert Apply(s, a).clients == s.clients;
    }
  }

  predicate ReaderMoves(a: Action) {
    a.ReaderSelect? || a.ReaderRead? || a.ReaderError? || a.ReaderBuffer? || a.ReaderLock? || a.ReaderSend?
    || a.ReaderUnlock? || a.StartChild?
  }

  lemma ReaderAlone(s: State, a: Action)
    requires Enabled(s, a)
    ensures !ReaderMoves(a) ==> Apply(s, a).reader == s.reader && Apply(s, a).chunks == s.chunks
  {
  }

  lemma SameReaderNext(s: State, a: Action, c: Id)
    requires Enabled(s, a) && c in s.clients && !ReaderMoves(a)
    ensures c in Apply(s, a).clients && NextChunk(Apply(s, a), c) == NextChunk(s, c)
  {
    ReaderAlone(s, a);
  }

  lemma MovedReaderNext(s: State, a: Action, c: Id)
    requires Enabled(s, a) && LifeInv(s) && StreamInv(s) && c in s.clients && ReaderMoves(a)
    requires !(a.ReaderSend? && a.to == c)
    ensures c in Apply(s, a).clients && NextChunk(Apply(s, a), c) == NextChunk(s, c)
  {
  }

  lemma NextKept(s: State, a: Action, c: Id)
    requires Enabled(s, a) && LifeInv(s) && StreamInv(s) && c in s.clients && !(a.ReaderSend? && a.to == c)
    ensures c in Apply(s, a).clients && NextChunk(Apply(s, a), c) == NextChunk(s, c)
  {
    if ReaderMoves(a) {
      MovedReaderNext(s, a, c);
    } else {
      SameReaderNext(s, a, c);
    }
  }

  lemma InputOnRequest(s: State, a: Action)
    requires Enabled(s, a) && RequestMoves(a) && !a.PtyWrite?
    ensures Apply(s, a).ptyIn == s.ptyIn
  {
  }

  lemma InputElsewhere(s: State, a: Action)
    requires Enabled(s, a) && !RequestMoves(a) && !ReaderMoves(a) && !a.ClientInput?
    ensures Apply(s, a).ptyIn == s.ptyIn
  {
  }

  lemma InputAlone(s: State, a: Action)
    requires Enabled(s, a)
    ensures !a.PtyWrite? && !a.ClientInput? ==> Apply(s, a).ptyIn == s.ptyIn
  {
    if !a.PtyWrite? && !a.ClientInput? {
      if RequestMoves(a) {
        InputOnRequest(s, a);
      } else if !ReaderMoves(a) {
        InputElsewhere(s, a);
      }
    }
  }

  lemma ExitKept(s: State, a: Action)
    requires Enabled(s, a) && LifeInv(s) && StreamInv(s) && ExitInv(s)
    ensures ExitInv(Apply(s, a))
  {
    var t := Apply(s, a);
    forall c <- t.clients ensures ClientExit(t, c) {
      if c in s.clients {
        ExitKeptFor(s, a, c);
      }
    }
  }

  lemma ExitKeptFor(s: State, a: Action, c: Id)
    requires Enabled(s, a) && LifeInv(s) && StreamInv(s) && ExitInv(s) && c in s.clients
    ensures c in Apply(s, a).clients && ClientExit(Apply(s, a), c)
  {
    var t := Apply(s, a);
    assert ClientExit(s, c);
    SendsOf(s, a, c);
    ExitControl(s, a, c);
    var sends := s.clients[c].sends;
    if t.clients[c].sends != sends {
      SendSnoc(sends, t.clients[c].sends[|sends|]);
    }
  }

  /** What one step does to the reader's budget once `done` is closed. */
  lemma BudgetControl(s: State, a: Action, c: Id)
    requires Enabled(s, a) && LifeInv(s) && StreamInv(s) && c in s.clients
    ensures var t := Apply(s, a);
      && (s.done ==> t.done && t.exitCode == s.exitCode && Budget(t, c) <= Budget(s, c))
      && (a.ReaderSend? && a.to == c ==> Budget(s, c) == 1 && Budget(t, c) == 0)
  {
  }

  /** What one step does to the control state that bounds a client's frames after exit. */
  lemma ExitControl(s: State, a: Action, c: Id)
    requires Enabled(s, a) && LifeInv(s) && StreamInv(s) && c in s.clients
    ensures var t := Apply(s, a);
      && (s.done ==> t.done && t.exitCode == s.exitCode)
      && (s.done ==> Budget(t, c) <= Budget(s, c))
      && (s.waiter.Announcing? || s.waiter.Announced? ==> t.waiter.Announcing? || t.waiter.Announced?)
      && (a.ReaderSend? && a.to == c ==> Budget(s, c) == 1 && Budget(t, c) == 0)
      && (a.AnnounceSend? && a.to == c ==> t.waiter.Announcing? && c !in t.waiter.todo)
      && (t.waiter.Announcing? && c in t.waiter.todo ==>
            s.waiter.DoneClosed? || (s.waiter.Announcing? && c in s.waiter.todo))
  {
    BudgetControl(s, a, c);
  }

  lemma InvKept(s: State, a: Action)
    requires Enabled(s, a) && Inv(s)
    ensures Inv(Apply(s, a))
  {
    LifeKept(s, a);
    BufferKept(s, a);
    VerdictKept(s, a);
    DrainKept(s, a);
    StreamKept(s, a);
    ExitKept(s, a);
  }

  /** Every run from a state that satisfies the invariant stays inside it. */
  lemma {:induction false} InvAlong(s: State, acts: seq<Action>, t: State)
    requires Inv(s) && Exec(s, acts) == Some(t)
    ensures Inv(t)
  {
    if acts != [] {
      var mid := Exec(s, acts[..|acts| - 1]).value;
      InvAlong(s, acts[..|acts| - 1], mid);
      InvKept(mid, acts[|acts| - 1]);
    }
  }

  lemma ReachableInv(s: State)
    requires Reachable(s)
    ensures Inv(s)
  {
    var acts :| Exec(Init(), acts) == Some(s);
    InvAlong(Init(), acts, s);
  }
}
