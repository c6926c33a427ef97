/** What the bridge promises in every reachable state and over every run. */
module BridgeTheorems {
  import opened Bytes
  import opened Wrappers
  import opened OutputBuffers
  import opened Bridge
  import opened BridgeInvariants
  import opened BridgeTraces

  // ---------- conservation ----------

  lemma {:induction false} ReleasedPrefix(segs: seq<Segment>, i: nat)
    requires i <= |segs|
    ensures Released(segs[..i]) <= Released(segs)
  {
    if i == |segs| {
      assert segs[..i] == segs;
    } else {
      assert segs[..|segs| - 1][..i] == segs[..i];
      ReleasedPrefix(segs[..|segs| - 1], i);
    }
  }

  /** Release `i` is the stretch of the buffered output that starts where the releases before it end. */
  predicate OwnStretch(s: State, i: nat)
    requires i < |s.segments|
  {
    var from := |Released(s.segments[..i])|;
    var to := from + |s.segments[i].bytes|;
    to <= |Flatten(s.chunks)| && Flatten(s.chunks)[from..to] == s.segments[i].bytes
  }

  lemma ReleaseOwnsStretch(s: State, i: nat)
    requires BufferInv(s) && i < |s.segments|
    ensures OwnStretch(s, i)
  {
    var upTo := s.segments[..i + 1];
    assert upTo[..i] == s.segments[..i];
    ReleasedPrefix(s.segments, i + 1);
    assert Released(upTo) == Released(s.segments[..i]) + s.segments[i].bytes;
    assert Released(upTo) <= Flatten(s.chunks);
  }

  lemma ReleasesInOrder(segs: seq<Segment>, i: nat, j: nat)
    requires i < j <= |segs|
    ensures |Released(segs[..i])| + |segs[i].bytes| <= |Released(segs[..j])|
  {
    assert segs[..j][..i + 1] == segs[..i + 1] && segs[..i + 1][..i] == segs[..i];
    ReleasedPrefix(segs[..j], i + 1);
  }

  /**
   Nothing is invented, lost or repeated: what was released, the live buffer and what the reader still holds rebuild
   what the PTY returned, on whatever run led here, and every release is its own stretch of that output, so no byte is
   in two drains.
   */
  lemma Conservation(s: State)
    requires Reachable(s)
    ensures Released(s.segments) + s.buffer == Flatten(s.chunks)
    ensures forall acts: seq<Action> | Exec(Init(), acts) == Some(s) ::
      Released(s.segments) + s.buffer + InReader(s) == PtyRead(acts)
    ensures forall i | 0 <= i < |s.segments| :: OwnStretch(s, i)
    ensures forall i, j | 0 <= i < j < |s.segments| ::
      |Released(s.segments[..i])| + |s.segments[i].bytes| <= |Released(s.segments[..j])|
    ensures forall i, j | 0 <= i < j < |s.segments| :: s.segments[i].Drained? && s.segments[j].Drained? ==>
      s.segments[i].owner != s.segments[j].owner
  {
    ReachableInv(s);
    forall i | 0 <= i < |s.segments| ensures OwnStretch(s, i) {
      ReleaseOwnsStretch(s, i);
    }
    forall i, j | 0 <= i < j < |s.segments|
      ensures |Released(s.segments[..i])| + |s.segments[i].bytes| <= |Released(s.segments[..j])|
    {
      ReleasesInOrder(s.segments, i, j);
    }
    forall acts: seq<Action> | Exec(Init(), acts) == Some(s)
      ensures Released(s.segments) + s.buffer + InReader(s) == PtyRead(acts)
    {
      OutputIsRead(acts, s);
    }
  }

  /** How many releases there were up to and including the last drain. */
  function LastDrain(segs: seq<Segment>): (n: nat)
    ensures n <= |segs|
    ensures forall i | n <= i < |segs| :: segs[i].Evicted?
    ensures n > 0 ==> segs[n - 1].Drained?
  {
    if segs == [] then 0
    else if segs[|segs| - 1].Drained? then |segs|
    else LastDrain(segs[..|segs| - 1])
  }

  /** The live buffer is the last mebibyte of what was buffered since the last drain. */
  lemma BufferIsTail(s: State)
    requires Reachable(s)
    ensures var drained := |Released(s.segments[..LastDrain(s.segments)])|;
      drained <= |Flatten(s.chunks)| && s.buffer == Tail(Flatten(s.chunks)[drained..], CAP)
  {
    ReachableInv(s);
    var n := LastDrain(s.segments);
    ReleasedPrefix(s.segments, n);
    var all := Flatten(s.chunks);
    var drained := |Released(s.segments[..n])|;
    if n == |s.segments| {
      assert s.segments[..n] == s.segments;
      assert all[drained..] == s.buffer;
    } else {
      assert |s.buffer| == CAP;
      assert all[drained..][|all| - drained - CAP..] == s.buffer;
    }
  }

  // ---------- exit ----------

  /**
   A response that carries exit comes too late to miss anything: everything buffered before `isRunning` became
   false had left the buffer, by that response's own drain at the latest.
   */
  lemma FlagBeforeDrain(s: State, r: Id, data: seq<Byte>, code: Int64)
    requires Reachable(s) && r in s.requests && s.requests[r] == Answered(Lines(data, Some(code)))
    ensures !s.running && s.stopMark <= |Flatten(s.chunks)|
    ensures exists i | 0 <= i < |s.segments| ::
      s.segments[i] == Drained(r, data, Some(code))
      && Flatten(s.chunks)[..s.stopMark] <= Released(s.segments[..i + 1])
  {
    ReachableInv(s);
    assert HasDrain(s, r) && AnsweredExit(s, r);
    var i :| 0 <= i < |s.segments| && s.segments[i] == Drained(r, data, Some(code));
    assert ExitSegment(s, i);
    ReleasedPrefix(s.segments, i + 1);
    assert Released(s.segments[..i + 1]) <= Flatten(s.chunks);
    assert Flatten(s.chunks)[..s.stopMark] == Released(s.segments[..i + 1])[..s.stopMark];
  }

  /**
   The child is started at most once, and every exit message, on HTTP or WebSocket, carries the one code: that with
   which the process was reaped.
   */
  lemma OneProcessOneVerdict(s: State)
    requires Reachable(s)
    ensures s.children <= 1 && (s.children == 1 <==> s.up)
    ensures forall i <- s.inits :: s.inits[i].Ready? <==> s.up
    ensures s.once.Finished? && !s.up ==> OneError(s)
    ensures forall i, j | i in s.inits && j in s.inits :: s.inits[i].InitError? && s.inits[j].InitError? ==> i == j
    ensures forall r <- s.requests :: AnsweredExit(s, r)
    ensures forall c <- s.clients :: Exits(s.clients[c].sends) <= 1
    ensures forall c <- s.clients, k | 0 <= k < |s.clients[c].sends| ::
      s.clients[c].sends[k].frame.ExitFrame? ==>
        s.done && !s.running && s.clients[c].sends[k].frame.code == s.exitCode
    ensures s.up && !s.running ==> forall acts: seq<Action> | Exec(Init(), acts) == Some(s) :: Reap(s.exitCode) in acts
  {
    ReachableInv(s);
    forall acts: seq<Action> | Exec(Init(), acts) == Some(s) ensures s.up && !s.running ==> Reap(s.exitCode) in acts {
      CodeIsReaped(acts, s);
    }
    forall c <- s.clients ensures ClientExit(s, c) {}
  }

  /** Once `done` is closed one more chunk at most is buffered, and a client sees at most one chunk after its exit. */
  lemma BoundedTailAfterExit(s: State)
    requires Reachable(s)
    ensures s.done ==> s.doneMark <= |s.chunks| <= s.doneMark + 1
    ensures s.done ==> |Flatten(s.chunks)| <= |Flatten(s.chunks[..s.doneMark])| + 32768
    ensures forall c <- s.clients :: DataAfterExit(s.clients[c].sends) <= 1
  {
    ReachableInv(s);
    forall c <- s.clients ensures DataAfterExit(s.clients[c].sends) <= 1 {
      assert ClientExit(s, c);
    }
    if s.done {
      OneMoreChunk(s.chunks, s.doneMark);
    }
  }

  lemma OneMoreChunk(chunks: seq<seq<Byte>>, mark: nat)
    requires mark <= |chunks| <= mark + 1 && forall k | 0 <= k < |chunks| :: |chunks[k]| <= READ_SIZE
    ensures |Flatten(chunks)| <= |Flatten(chunks[..mark])| + READ_SIZE
  {
    if |chunks| == mark {
      assert chunks[..mark] == chunks;
    } else {
      FlattenSnoc(chunks[..mark], chunks[mark]);
      assert chunks == chunks[..mark] + [chunks[mark]];
    }
  }

  lemma ReachableNext(s: State, a: Action)
    requires Reachable(s) && Enabled(s, a)
    ensures Reachable(Apply(s, a))
  {
    var acts :| Exec(Init(), acts) == Some(s);
    assert (acts + [a])[..|acts|] == acts;
    assert Exec(Init(), acts + [a]) == Some(Apply(s, a));
  }

  lemma Next(s: State, a: Action) returns (t: State)
    requires Reachable(s) && Enabled(s, a)
    ensures t == Apply(s, a) && Reachable(t)
  {
    ReachableNext(s, a);
    t := Apply(s, a);
  }

  /** A run to one registered client, with the reader inside its read. */
  lemma ReadUnderWay() returns (s: State)
    ensures Reachable(s) && !s.halted && s.reader == InRead && s.waiter == Waiting && s.chunks == []
    ensures s.clients == map[0 := Client(true, 0, 0, [])]
  {
    assert Exec(Init(), []) == Some(Init());
    s := Next(Init(), CallOnce(0));
    s := Next(s, StartChild(true));
    s := Next(s, AddClient(0));
    s := Next(s, ReaderSelect);
  }

  /** The process ends, and its end is about to be announced, while the read is still under way. */
  lemma ProcessEnded() returns (s: State)
    ensures Reachable(s) && !s.halted && s.reader == InRead && s.waiter == Announcing(0, {0}) && s.chunks == []
    ensures s.clients == map[0 := Client(true, 0, 0, [])]
  {
    s := ReadUnderWay();
    s := Next(s, Reap(0));
    s := Next(s, Mark);
    s := Next(s, CloseDone);
    assert Live(s) == {0};
    s := Next(s, AnnounceLock);
  }

  lemma ExitAnnounced() returns (s: State)
    ensures Reachable(s) && !s.halted && s.reader == InRead && s.waiter.Announced? && s.chunks == []
    ensures s.clients == map[0 := Client(true, 0, 0, [Send(ExitFrame(0), true)])]
  {
    s := ProcessEnded();
    s := Next(s, AnnounceSend(0, true));
    assert [] + [Send(ExitFrame(0), true)] == [Send(ExitFrame(0), true)];
    assert s.clients == map[0 := Client(true, 0, 0, [Send(ExitFrame(0), true)])];
    assert s.waiter.todo == {};
    s := Next(s, AnnounceUnlock);
  }

  /** The bound is sharp: exit need not be a client's last frame, one chunk can come after it. */
  lemma DataCanFollowExit()
    ensures exists s: State :: Reachable(s) && 0 in s.clients && DataAfterExit(s.clients[0].sends) == 1
  {
    var s := ExitAnnounced();
    s := Next(s, ReaderRead([7]));
    s := Next(s, ReaderBuffer);
    s := Next(s, ReaderLock);
    s := Next(s, ReaderSend(0, true));
    var sends := s.clients[0].sends;
    assert sends == [Send(ExitFrame(0), true)] + [Send(DataFrame([7]), true)];
    SendSnoc([Send(ExitFrame(0), true)], Send(DataFrame([7]), true));
    SendSnoc([], Send(ExitFrame(0), true));
    assert [] + [Send(ExitFrame(0), true)] == [Send(ExitFrame(0), true)];
  }

  // ---------- streams ----------

  /** The data frames a client really received. */
  function Delivered(sends: seq<Send>): seq<seq<Byte>> {
    if sends == [] then []
    else
      var x := sends[|sends| - 1];
      Delivered(sends[..|sends| - 1]) + if x.ok && x.frame.DataFrame? then [x.frame.bytes] else []
  }

  lemma {:induction false} DeliveredAll(sends: seq<Send>)
    requires forall x <- sends :: x.ok
    ensures Delivered(sends) == DataOf(sends)
  {
    if sends != [] {
      DeliveredAll(sends[..|sends| - 1]);
    }
  }

  lemma FlattenSlice(chunks: seq<seq<Byte>>, i: nat, j: nat)
    requires i <= j <= |chunks|
    ensures |Flatten(chunks[..i])| <= |Flatten(chunks[..j])| <= |Flatten(chunks)|
    ensures Flatten(chunks[i..j]) == Flatten(chunks)[|Flatten(chunks[..i])|..|Flatten(chunks[..j])|]
  {
    assert chunks == chunks[..j] + chunks[j..] && chunks[..j] == chunks[..i] + chunks[i..j];
    FlattenAppend(chunks[..j], chunks[j..]);
    FlattenAppend(chunks[..i], chunks[i..j]);
  }

  /**
   Every client is offered each chunk of one contiguous run of chunks exactly once and in order; without write
   errors it receives one contiguous, chunk-aligned stretch of the PTY output.
   */
  lemma ContiguousStreams(s: State, c: Id)
    requires Reachable(s) && c in s.clients
    ensures 0 <= s.clients[c].first <= NextChunk(s, c) <= |s.chunks|
    ensures DataOf(s.clients[c].sends) == s.chunks[s.clients[c].first..NextChunk(s, c)]
    ensures (forall x <- s.clients[c].sends :: x.ok) ==>
      var from, to := |Flatten(s.chunks[..s.clients[c].first])|, |Flatten(s.chunks[..NextChunk(s, c)])|;
      from <= to <= |Flatten(s.chunks)| && Flatten(Delivered(s.clients[c].sends)) == Flatten(s.chunks)[from..to]
  {
    ReachableInv(s);
    assert ClientStream(s, c);
    FlattenSlice(s.chunks, s.clients[c].first, NextChunk(s, c));
    if forall x <- s.clients[c].sends :: x.ok {
      DeliveredAll(s.clients[c].sends);
    }
  }

  // ---------- along a run ----------

  /** What later states remember of earlier ones. */
  predicate Remembers(s: State, t: State) {
    && s.chunks <= t.chunks && s.segments <= t.segments
    && (s.up ==> t.up && t.children == s.children)
    && (s.up && !s.running ==> !t.running && t.exitCode == s.exitCode && t.stopMark == s.stopMark)
    && (s.done ==> t.done && t.doneMark == s.doneMark)
    && forall c <- s.clients :: SameClient(s, t, c)
  }

  predicate SameClient(s: State, t: State, c: Id)
    requires c in s.clients
  {
    c in t.clients && t.clients[c].first == s.clients[c].first && s.clients[c].sends <= t.clients[c].sends
  }

  lemma RememberStep(s: State, a: Action)
    requires Enabled(s, a) && LifeInv(s)
    ensures Remembers(s, Apply(s, a))
  {
    Untouched(s, a);
    forall c <- s.clients ensures SameClient(s, Apply(s, a), c) {
      SendsOf(s, a, c);
    }
  }

  lemma RememberTrans(s: State, m: State, t: State)
    requires Remembers(s, m) && Remembers(m, t)
    ensures Remembers(s, t)
  {
    forall c <- s.clients ensures SameClient(s, t, c) {
      assert SameClient(s, m, c) && SameClient(m, t, c);
    }
  }

  /** The verdict is final: once marked stopped a session never runs again and never changes its code. */
  lemma {:induction false} HistoryGrows(s: State, acts: seq<Action>, t: State)
    requires Inv(s) && Exec(s, acts) == Some(t)
    ensures Remembers(s, t)
  {
    if acts != [] {
      var acts0 := acts[..|acts| - 1];
      var mid := Exec(s, acts0).value;
      HistoryGrows(s, acts0, mid);
      InvAlong(s, acts0, mid);
      RememberStep(mid, acts[|acts| - 1]);
      RememberTrans(s, mid, t);
    }
  }

  lemma VerdictIsFinal(s: State, t: State)
    requires Reachable(s) && Leads(s, t) && s.up && !s.running
    ensures t.up && !t.running && t.exitCode == s.exitCode && t.children == s.children
    ensures s.done ==> t.done && |t.chunks| <= s.doneMark + 1
  {
    ReachableInv(s);
    RunRemembers(s, t);
  }

  lemma {:induction false} DataOfPrefix(a: seq<Send>, b: seq<Send>)
    requires a <= b
    ensures DataOf(a) <= DataOf(b)
  {
    if a == b {
    } else {
      assert a <= b[..|b| - 1];
      DataOfPrefix(a, b[..|b| - 1]);
    }
  }

  /** Between two states of a run a client is sent exactly the chunks from its next one on. */
  lemma SentBetween(s: State, t: State, c: Id)
    requires Inv(s) && Inv(t) && Remembers(s, t) && c in s.clients
    ensures c in t.clients && 0 <= NextChunk(s, c) <= NextChunk(t, c) <= |t.chunks|
    ensures DataOf(t.clients[c].sends) == DataOf(s.clients[c].sends) + t.chunks[NextChunk(s, c)..NextChunk(t, c)]
  {
    assert SameClient(s, t, c) && ClientStream(s, c) && ClientStream(t, c);
    DataOfPrefix(s.clients[c].sends, t.clients[c].sends);
    SliceSplit(t.chunks, s.clients[c].first, NextChunk(s, c), NextChunk(t, c), s.chunks);
  }

  lemma SliceSplit(all: seq<seq<Byte>>, first: int, mid: int, next: int, early: seq<seq<Byte>>)
    requires 0 <= first <= mid <= |early| && first <= next <= |all| && early <= all
    requires early[first..mid] <= all[first..next]
    ensures mid <= next && all[first..next] == early[first..mid] + all[mid..next]
  {
    assert |early[first..mid]| == mid - first;
  }

  /**
   Handover from polling to streaming.  When a drain happens while client `c` is registered, every byte not
   released before that drain is either in the drained bytes or in the frames `c` is sent afterwards.  Those
   frames start at the drain's end or one chunk before it, because a chunk is buffered before it is broadcast.
   */
  lemma NoGapHandover(s: State, req: Id, t: State, c: Id)
    requires Reachable(s) && Enabled(s, Drain(req)) && Leads(Apply(s, Drain(req)), t)
    requires c in s.clients && s.clients[c].live
    ensures |s.segments| < |t.segments|
    ensures var drain := t.segments[|s.segments|]; drain.Drained? && drain.owner == req && drain.bytes == s.buffer
    ensures c in t.clients
    ensures var n, from, to := |s.chunks|, NextChunk(s, c), NextChunk(t, c);
      && n - 1 <= from <= n && 0 <= from <= to <= |t.chunks|
      && DataOf(t.clients[c].sends) == DataOf(s.clients[c].sends) + t.chunks[from..to]
      && (n <= to ==> Flatten(t.chunks[..to]) == Released(s.segments) + s.buffer + Flatten(t.chunks[n..to]))
  {
    ReachableInv(s);
    DrainThenRun(s, req, t);
    SentBetween(s, t, c);
    if |s.chunks| <= NextChunk(t, c) {
      PrefixParts(s.chunks, t.chunks, NextChunk(t, c));
    }
  }

  lemma DrainThenRun(s: State, req: Id, t: State)
    requires Inv(s) && Enabled(s, Drain(req)) && Leads(Apply(s, Drain(req)), t)
    ensures Inv(t) && Remembers(s, t) && |s.segments| < |t.segments|
    ensures var drain := t.segments[|s.segments|]; drain.Drained? && drain.owner == req && drain.bytes == s.buffer
  {
    var d := Apply(s, Drain(req));
    InvKept(s, Drain(req));
    RememberStep(s, Drain(req));
    DrainRecorded(s, req);
    RunRemembers(d, t);
    RememberTrans(s, d, t);
  }

  lemma RunRemembers(s: State, t: State)
    requires Inv(s) && Leads(s, t)
    ensures Inv(t) && Remembers(s, t)
  {
    var acts :| Exec(s, acts) == Some(t);
    HistoryGrows(s, acts, t);
    InvAlong(s, acts, t);
  }

  lemma DrainRecorded(s: State, req: Id)
    requires Enabled(s, Drain(req))
    ensures var d := Apply(s, Drain(req));
      |d.segments| == |s.segments| + 1
      && var drain := d.segments[|s.segments|]; drain.Drained? && drain.owner == req && drain.bytes == s.buffer
  {
  }

  lemma PrefixParts(early: seq<seq<Byte>>, all: seq<seq<Byte>>, to: nat)
    requires early <= all && |early| <= to <= |all|
    ensures Flatten(all[..to]) == Flatten(early) + Flatten(all[|early|..to])
  {
    assert all[..to] == early + all[|early|..to];
    FlattenAppend(early, all[|early|..to]);
  }
}
