/**
 When the output on SSH has a hole.  Bytes go missing in three steps only, each with a guard that can be checked
 before it; and a session that goes on can show the hole exactly when bytes have gone missing.
 */
module OutputHoles {
  import opened Bytes
  import opened Wrappers
  import opened OutputBuffers
  import opened Bridge
  import opened BridgeInvariants
  import opened BridgeTraces
  import opened OutputPath
  import opened LostReplies

  // ---------- the steps that take bytes ----------

  /**
   The chunk does not fit under the cap; a request whose response was given up drains bytes; a response that carries
   bytes is given up.
   */
  predicate TakesBytes(s: Path, x: Act)
    requires Can(s, x)
  {
    match x
    case OnBridge(a) =>
      || (a.ReaderBuffer? && |s.bridge.buffer| + |s.bridge.reader.chunk| > CAP)
      || (a.Drain? && a.req in s.lost && s.bridge.buffer != [])
    case LoseReply => s.poller.req in s.bridge.requests && Pending(s.bridge.requests[s.poller.req]) != []
    case _ => false
  }

  /** What one bridge step releases: nothing, what the cap pushes out, or a drain. */
  function ReleasedBy(b: State, a: Action): seq<Segment>
    requires Enabled(b, a)
  {
    if a.ReaderBuffer? then
      var all := b.buffer + b.reader.chunk;
      if |all| > CAP then [Evicted(all[..|all| - CAP])] else []
    else if a.Drain? then
      var q := b.requests[a.req];
      [Drained(a.req, b.buffer, if q.running then None else Some(q.code))]
    else []
  }

  lemma ReleaseStep(b: State, a: Action)
    requires Enabled(b, a)
    ensures Apply(b, a).segments == b.segments + ReleasedBy(b, a)
  {
    HistoryUntouched(b, a);
    if !a.ReaderBuffer? && !a.Drain? {
      assert b.segments + [] == b.segments;
    }
  }

  lemma WholeAppend(a: seq<Segment>, b: seq<Segment>, lost: set<Id>)
    ensures Whole(a + b, lost) <==> Whole(a, lost) && Whole(b, lost)
  {
    assert forall x :: x in a + b <==> x in a || x in b;
  }

  /** No step but a lost response changes what counts as lost, and none takes a release back. */
  lemma PathReleases(s: Path, x: Act)
    requires Can(s, x) && PathInv(s)
    ensures var t := Do(s, x);
      && t.lost == (if x.LoseReply? then s.lost + {s.poller.req} else s.lost)
      && t.bridge.segments == s.bridge.segments + if x.OnBridge? then ReleasedBy(s.bridge, x.a) else []
  {
    assert s.bridge.segments + [] == s.bridge.segments;
    match x {
      case OnBridge(a) => ReleaseStep(s.bridge, a);
      case SendGet(req) => NewRequest(s.bridge, req);
      case _ =>
    }
  }

  lemma NewIsWhole(s: Path, a: Action)
    requires Can(s, OnBridge(a))
    ensures Whole(ReleasedBy(s.bridge, a), s.lost) <==> !TakesBytes(s, OnBridge(a))
  {
    var news := ReleasedBy(s.bridge, a);
    if news != [] {
      assert news[0] in news;
      if a.ReaderBuffer? {
        assert |news[0].bytes| > 0;
      }
    }
  }

  /** The drain of an awaited response is in the history, with the bytes the response carries, and only once. */
  lemma AwaitedDrain(s: Path)
    requires PathInv(s) && s.poller.Polling?
    ensures forall x <- s.bridge.segments :: x.Drained? && x.owner == s.poller.req ==>
      x.bytes == Pending(s.bridge.requests[s.poller.req])
    ensures Pending(s.bridge.requests[s.poller.req]) != [] ==>
      exists x <- s.bridge.segments :: x.Drained? && x.owner == s.poller.req && x.bytes != []
  {
    var q := s.bridge.requests[s.poller.req];
    if Pending(q) != [] {
      assert HasDrain(s.bridge, s.poller.req);
      assert Drained(s.poller.req, q.reply.data, q.reply.exit) in s.bridge.segments;
    }
    forall x <- s.bridge.segments | x.Drained? && x.owner == s.poller.req ensures x.bytes == Pending(q) {
      var i :| 0 <= i < |s.bridge.segments| && s.bridge.segments[i] == x;
    }
  }

  lemma LossTakes(s: Path)
    requires Can(s, LoseReply) && PathInv(s) && Whole(s.bridge.segments, s.lost)
    ensures Whole(s.bridge.segments, s.lost + {s.poller.req}) <==> !TakesBytes(s, LoseReply)
  {
    AwaitedDrain(s);
  }

  /** Bytes go missing exactly in the steps that `TakesBytes` names. */
  lemma WholeStep(s: Path, x: Act)
    requires Can(s, x) && PathInv(s) && Whole(s.bridge.segments, s.lost)
    ensures Whole(Do(s, x).bridge.segments, Do(s, x).lost) <==> !TakesBytes(s, x)
  {
    PathReleases(s, x);
    if x.OnBridge? {
      NewIsWhole(s, x.a);
      WholeAppend(s.bridge.segments, ReleasedBy(s.bridge, x.a), s.lost);
    } else if x.LoseReply? {
      LossTakes(s);
      assert s.bridge.segments + [] == s.bridge.segments;
    } else {
      assert s.bridge.segments + [] == s.bridge.segments;
    }
  }

  /** What is missing stays missing. */
  lemma MissingStays(s: Path, x: Act)
    requires Can(s, x) && PathInv(s) && Whole(Do(s, x).bridge.segments, Do(s, x).lost)
    ensures Whole(s.bridge.segments, s.lost)
  {
    PathReleases(s, x);
    var more := if x.OnBridge? then ReleasedBy(s.bridge, x.a) else [];
    WholeAppend(s.bridge.segments, more, Do(s, x).lost);
  }

  ghost predicate NothingTaken(acts: seq<Act>) {
    if acts == [] then true
    else
      var before, x := acts[..|acts| - 1], acts[|acts| - 1];
      && NothingTaken(before)
      && match Play(PROGRAM_CODEC, before)
         case None => true
         case Some(mid) => Can(mid, x) ==> !TakesBytes(mid, x)
  }

  /** Over every run: nothing is missing exactly when no step of it took bytes. */
  lemma {:induction false} WholeIffNothingTaken(acts: seq<Act>, s: Path)
    requires Play(PROGRAM_CODEC, acts) == Some(s)
    ensures Whole(s.bridge.segments, s.lost) <==> NothingTaken(acts)
  {
    ProgramCodecIsFaithful();
    if acts == [] {
      StartedIs();
    } else {
      var before, x := acts[..|acts| - 1], acts[|acts| - 1];
      var mid := Play(PROGRAM_CODEC, before).value;
      WholeIffNothingTaken(before, mid);
      PathInvAlways(PROGRAM_CODEC, before, mid);
      if Whole(mid.bridge.segments, mid.lost) {
        WholeStep(mid, x);
      } else if Whole(s.bridge.segments, s.lost) {
        MissingStays(mid, x);
      }
    }
  }

  // ---------- runs that take nothing more ----------

  /** From `s` to `t` no more bytes went missing. */
  predicate Spared(s: Path, t: Path) {
    && t.lost == s.lost && s.bridge.segments <= t.bridge.segments
    && Whole(t.bridge.segments[|s.bridge.segments|..], s.lost)
  }

  /** Some continuation that takes no more bytes leaves SSH with something that is no prefix of the output. */
  ghost predicate CanShowHole(s: Path) {
    exists acts: seq<Act>, t: Path ::
      Continue(s, acts) == Some(t) && Spared(s, t) && !(t.ssh <= Flatten(t.bridge.chunks))
  }

  /** The process runs, the reader and the poll loop are at work, and the relay listens. */
  predicate GoesOn(s: Path) {
    && s.bridge.running && !s.bridge.halted && !s.bridge.reader.ReaderGone?
    && !s.poller.PollerGone? && s.relay.Listening?
  }

  lemma {:induction false} InvOn(s: Path, acts: seq<Act>, t: Path)
    requires PathInv(s) && Continue(s, acts) == Some(t)
    ensures PathInv(t)
  {
    if acts != [] {
      var mid := Continue(s, acts[..|acts| - 1]).value;
      InvOn(s, acts[..|acts| - 1], mid);
      PathInvKept(mid, acts[|acts| - 1]);
    }
  }

  lemma SparedStays(s: Path, t: Path)
    requires Spared(s, t) && Whole(s.bridge.segments, s.lost)
    ensures Whole(t.bridge.segments, t.lost)
  {
    var n := |s.bridge.segments|;
    assert t.bridge.segments == s.bridge.segments + t.bridge.segments[n..];
    WholeAppend(s.bridge.segments, t.bridge.segments[n..], s.lost);
  }

  /** With nothing missing, SSH shows a prefix of the output over every continuation that takes no bytes. */
  lemma NoHoleWhenWhole(acts: seq<Act>, s: Path)
    requires Play(PROGRAM_CODEC, acts) == Some(s) && Whole(s.bridge.segments, s.lost)
    ensures !CanShowHole(s)
  {
    ProgramCodecIsFaithful();
    PathInvAlways(PROGRAM_CODEC, acts, s);
    forall more: seq<Act>, t: Path | Continue(s, more) == Some(t) && Spared(s, t)
      ensures t.ssh <= Flatten(t.bridge.chunks)
    {
      InvOn(s, more, t);
      SparedStays(s, t);
      SshIsPrefix(t);
    }
  }

  // ---------- with bytes missing, the hole can show ----------

  /** A run from `s0` that took nothing. */
  ghost predicate Reached(s0: Path, acts: seq<Act>, s: Path) {
    Continue(s0, acts) == Some(s) && Spared(s0, s) && PathInv(s)
  }

  lemma SparedStep(s0: Path, s: Path, x: Act)
    requires Spared(s0, s) && PathInv(s) && Can(s, x) && !x.LoseReply? && !TakesBytes(s, x)
    ensures Spared(s0, Do(s, x))
  {
    PathReleases(s, x);
    var n, t := |s0.bridge.segments|, Do(s, x);
    var more := if x.OnBridge? then ReleasedBy(s.bridge, x.a) else [];
    if x.OnBridge? {
      NewIsWhole(s, x.a);
    }
    assert t.bridge.segments[n..] == s.bridge.segments[n..] + more;
    WholeAppend(s.bridge.segments[n..], more, s0.lost);
  }

  lemma Go(s0: Path, acts: seq<Act>, s: Path, x: Act) returns (more: seq<Act>, t: Path)
    requires Reached(s0, acts, s) && Can(s, x) && !x.LoseReply? && !TakesBytes(s, x)
    ensures t == Do(s, x) && Reached(s0, more, t)
  {
    more, t := OneMore(s0, acts, s, x);
    PathInvKept(s, x);
    SparedStep(s0, s, x);
  }

  /** The bridge's reader side is as it was. */
  predicate SameReader(s: Path, t: Path) {
    && t.bridge.reader == s.bridge.reader && t.bridge.chunks == s.bridge.chunks
    && t.bridge.clients == s.bridge.clients
  }

  /** The awaited response is answered and received. */
  lemma GetReply(s0: Path, s: Path, acts0: seq<Act>) returns (acts: seq<Act>, t: Path)
    requires Reached(s0, acts0, s) && GoesOn(s) && s.poller.Polling?
    ensures Reached(s0, acts, t) && GoesOn(t) && SameReader(s, t) && t.poller.Forwarding?
    ensures s.bridge.requests[s.poller.req].Draining? ==> t.bridge.buffer == []
  {
    acts, t := acts0, s;
    var r := s.poller.req;
    if s.bridge.requests[r].Draining? {
      DrainSteps(s.bridge, r);
      acts, t := Go(s0, acts, t, OnBridge(Snapshot(r)));
    }
    if t.bridge.requests[r].Flagged? {
      acts, t := DrainAwaited(s0, t, acts);
    }
    acts, t := Go(s0, acts, t, GotReply);
  }

  lemma DrainAwaited(s0: Path, s: Path, acts0: seq<Act>) returns (acts: seq<Act>, t: Path)
    requires Reached(s0, acts0, s) && GoesOn(s) && s.poller.Polling? && s.bridge.requests[s.poller.req].Flagged?
    ensures Reached(s0, acts, t) && GoesOn(t) && SameReader(s, t) && t.poller == s.poller && t.bridge.buffer == []
    ensures var q := t.bridge.requests[s.poller.req]; q.Answered? && q.reply.Lines?
  {
    acts, t := Go(s0, acts0, s, OnBridge(Drain(s.poller.req)));
  }

  lemma RunningShowsNoExit(s: Path, line: string)
    requires PathInv(s) && s.bridge.running && (line in s.wire || line in PollerLines(s))
    ensures !s.codec.read(line).ExitSeen? && !s.codec.read(line).Notice?
    ensures line in PollerLines(s) ==> !s.codec.seesExit(line)
  {
    assert Clean(s, line);
  }

  lemma {:induction false} ForwardAll(s0: Path, s: Path, acts0: seq<Act>) returns (acts: seq<Act>, t: Path)
    requires Reached(s0, acts0, s) && GoesOn(s) && s.poller.Forwarding?
    ensures Reached(s0, acts, t) && GoesOn(t) && t.bridge == s.bridge && t.poller.AtPoll?
    decreases |s.poller.lines|
  {
    if s.poller.lines == [] {
      acts, t := Go(s0, acts0, s, ForwardEnd);
    } else {
      RunningShowsNoExit(s, s.poller.lines[0]);
      acts, t := Go(s0, acts0, s, ForwardLine(true));
      acts, t := ForwardAll(s0, t, acts);
    }
  }

  lemma {:induction false} DeliverAll(s0: Path, s: Path, acts0: seq<Act>) returns (acts: seq<Act>, t: Path)
    requires Reached(s0, acts0, s) && GoesOn(s) && s.poller.AtPoll?
    ensures Reached(s0, acts, t) && GoesOn(t) && t.bridge == s.bridge && t.poller.AtPoll? && t.wire == []
    decreases |s.wire|
  {
    if s.wire == [] {
      return acts0, s;
    }
    RunningShowsNoExit(s, s.wire[0]);
    acts, t := Go(s0, acts0, s, Deliver);
    acts, t := DeliverAll(s0, t, acts);
  }

  /** Whatever the poll loop and the wire hold is shown. */
  lemma Settle(s0: Path, s: Path, acts0: seq<Act>) returns (acts: seq<Act>, t: Path)
    requires Reached(s0, acts0, s) && GoesOn(s)
    ensures Reached(s0, acts, t) && GoesOn(t) && SameReader(s, t) && t.poller.AtPoll? && t.wire == []
    ensures s.poller.Polling? && s.bridge.requests[s.poller.req].Draining? ==> t.bridge.buffer == []
  {
    acts, t := acts0, s;
    if s.poller.Polling? {
      acts, t := GetReply(s0, s, acts);
    }
    if t.poller.Forwarding? {
      acts, t := ForwardAll(s0, t, acts);
    }
    acts, t := DeliverAll(s0, t, acts);
  }

  /** One more poll brings out all that is buffered. */
  lemma PollOnce(s0: Path, s: Path, acts0: seq<Act>) returns (acts: seq<Act>, t: Path)
    requires Reached(s0, acts0, s) && GoesOn(s) && s.poller.AtPoll?
    ensures Reached(s0, acts, t) && GoesOn(t) && SameReader(s, t) && t.poller.AtPoll? && t.wire == []
    ensures t.bridge.buffer == []
  {
    var req := FreshId(s.bridge.requests.Keys);
    NewRequest(s.bridge, req);
    acts, t := Go(s0, acts0, s, SendGet(req));
    acts, t := Settle(s0, t, acts);
  }

  // ---------- the reader ----------

  /** Nothing but the reader side of the bridge differs, and nothing was released. */
  predicate OnlyReader(s: Path, t: Path) {
    t.poller == s.poller && t.wire == s.wire && t.bridge.chunks == s.bridge.chunks && t.bridge.buffer == s.bridge.buffer
  }

  lemma SendOne(s0: Path, s: Path, acts0: seq<Act>, c: Id) returns (acts: seq<Act>, t: Path)
    requires Reached(s0, acts0, s) && GoesOn(s) && s.bridge.reader.Sending? && c in s.bridge.reader.todo
    ensures Reached(s0, acts, t) && GoesOn(t) && OnlyReader(s, t)
    ensures t.bridge.reader == Sending(s.bridge.reader.chunk, s.bridge.reader.todo - {c})
  {
    assert c in Live(s.bridge);
    acts, t := Go(s0, acts0, s, OnBridge(ReaderSend(c, true)));
  }

  lemma {:induction false} SendAll(s0: Path, s: Path, acts0: seq<Act>) returns (acts: seq<Act>, t: Path)
    requires Reached(s0, acts0, s) && GoesOn(s) && s.bridge.reader.Sending?
    ensures Reached(s0, acts, t) && GoesOn(t) && OnlyReader(s, t) && t.bridge.reader.AtSelect?
    decreases |s.bridge.reader.todo|
  {
    if s.bridge.reader.todo == {} {
      acts, t := Go(s0, acts0, s, OnBridge(ReaderUnlock));
    } else {
      var c :| c in s.bridge.reader.todo;
      acts, t := SendOne(s0, s, acts0, c);
      acts, t := SendAll(s0, t, acts);
    }
  }

  lemma BroadcastAll(s0: Path, s: Path, acts0: seq<Act>) returns (acts: seq<Act>, t: Path)
    requires Reached(s0, acts0, s) && GoesOn(s) && s.bridge.reader.Buffered?
    ensures Reached(s0, acts, t) && GoesOn(t) && OnlyReader(s, t) && t.bridge.reader.AtSelect?
  {
    acts, t := Go(s0, acts0, s, OnBridge(ReaderLock));
    acts, t := SendAll(s0, t, acts);
  }

  lemma BufferHeld(s0: Path, s: Path, acts0: seq<Act>) returns (acts: seq<Act>, t: Path)
    requires Reached(s0, acts0, s) && GoesOn(s) && s.bridge.reader.Holding? && |s.bridge.buffer| <= READ_SIZE
    ensures Reached(s0, acts, t) && GoesOn(t) && t.poller == s.poller && t.wire == s.wire
    ensures t.bridge.reader.Buffered? && t.bridge.chunks == s.bridge.chunks + [s.bridge.reader.chunk]
    ensures t.bridge.buffer == s.bridge.buffer + s.bridge.reader.chunk
  {
    acts, t := Go(s0, acts0, s, OnBridge(ReaderBuffer));
  }

  lemma FinishHeld(s0: Path, s: Path, acts0: seq<Act>) returns (acts: seq<Act>, t: Path)
    requires Reached(s0, acts0, s) && GoesOn(s) && s.bridge.buffer == [] && s.bridge.reader.Holding?
    ensures Reached(s0, acts, t) && GoesOn(t) && t.poller == s.poller && t.wire == s.wire
    ensures t.bridge.reader.AtSelect? && |t.bridge.buffer| <= READ_SIZE
    ensures Flatten(t.bridge.chunks) == Flatten(s.bridge.chunks) + s.bridge.reader.chunk
  {
    FlattenSnoc(s.bridge.chunks, s.bridge.reader.chunk);
    acts, t := BufferHeld(s0, s, acts0);
    acts, t := BroadcastAll(s0, t, acts);
  }

  /** A turn with nothing in the reader's hands that is not buffered. */
  lemma FinishOther(s0: Path, s: Path, acts0: seq<Act>) returns (acts: seq<Act>, t: Path)
    requires Reached(s0, acts0, s) && GoesOn(s) && !s.bridge.reader.Holding?
    ensures Reached(s0, acts, t) && GoesOn(t) && OnlyReader(s, t) && t.bridge.reader.AtSelect?
  {
    acts, t := acts0, s;
    if s.bridge.reader.InRead? {
      acts, t := Go(s0, acts, t, OnBridge(ReaderRead([])));
    } else if s.bridge.reader.Buffered? {
      acts, t := BroadcastAll(s0, t, acts);
    } else if s.bridge.reader.Sending? {
      acts, t := SendAll(s0, t, acts);
    }
  }

  /** The reader finishes its turn; what it held is buffered. */
  lemma FinishTurn(s0: Path, s: Path, acts0: seq<Act>) returns (acts: seq<Act>, t: Path)
    requires Reached(s0, acts0, s) && GoesOn(s) && s.bridge.buffer == []
    ensures Reached(s0, acts, t) && GoesOn(t) && t.poller == s.poller && t.wire == s.wire
    ensures t.bridge.reader.AtSelect? && |t.bridge.buffer| <= READ_SIZE
    ensures Flatten(t.bridge.chunks) == Flatten(s.bridge.chunks) + InReader(s.bridge)
  {
    if s.bridge.reader.Holding? {
      acts, t := FinishHeld(s0, s, acts0);
    } else {
      acts, t := FinishOther(s0, s, acts0);
      assert Flatten(s.bridge.chunks) + [] == Flatten(s.bridge.chunks);
    }
  }

  lemma ReadBurst(b: State, bytes: seq<Byte>)
    requires b.reader == AtSelect && !b.done && !b.halted && |bytes| <= 32768
    ensures Enabled(b, ReaderSelect) && Apply(b, ReaderSelect) == b.(reader := InRead)
    ensures var b1 := b.(reader := InRead);
      && Enabled(b1, ReaderRead(bytes))
      && Apply(b1, ReaderRead(bytes)) == b.(reader := if bytes == [] then AtSelect else Holding(bytes))
  {
  }

  lemma Read(s0: Path, s: Path, acts0: seq<Act>, bytes: seq<Byte>) returns (acts: seq<Act>, t: Path)
    requires Reached(s0, acts0, s) && GoesOn(s) && |bytes| <= 32768 && s.bridge.reader.AtSelect?
    ensures Reached(s0, acts, t) && GoesOn(t) && OnlyReader(s, t)
    ensures t.bridge.reader == if bytes == [] then AtSelect else Holding(bytes)
  {
    ReadBurst(s.bridge, bytes);
    acts, t := Go(s0, acts0, s, OnBridge(ReaderSelect));
    acts, t := Go(s0, acts, t, OnBridge(ReaderRead(bytes)));
  }

  lemma ReadOne(s0: Path, s: Path, acts0: seq<Act>, x: Byte) returns (acts: seq<Act>, t: Path)
    requires Reached(s0, acts0, s) && GoesOn(s) && s.bridge.reader.AtSelect? && |s.bridge.buffer| <= READ_SIZE
    ensures Reached(s0, acts, t) && GoesOn(t) && t.poller == s.poller
    ensures t.bridge.chunks == s.bridge.chunks + [[x]]
  {
    acts, t := Read(s0, s, acts0, [x]);
    acts, t := BufferHeld(s0, t, acts);
  }

  // ---------- putting it together ----------

  lemma {:induction false} ContinueAppend(s: Path, a: seq<Act>, m: Path, b: seq<Act>, t: Path)
    requires Continue(s, a) == Some(m) && Continue(m, b) == Some(t)
    ensures Continue(s, a + b) == Some(t)
  {
    if b == [] {
      assert a + b == a;
    } else {
      var b0 := b[..|b| - 1];
      assert (a + b)[..|a + b| - 1] == a + b0;
      ContinueAppend(s, a, m, b0, Continue(m, b0).value);
    }
  }

  lemma SparedTrans(s: Path, m: Path, t: Path)
    requires Spared(s, m) && Spared(m, t)
    ensures Spared(s, t)
  {
    var n, k := |s.bridge.segments|, |m.bridge.segments|;
    assert t.bridge.segments[..k] == m.bridge.segments;
    assert t.bridge.segments[n..] == m.bridge.segments[n..] + t.bridge.segments[k..];
    WholeAppend(m.bridge.segments[n..], t.bridge.segments[k..], s.lost);
  }

  lemma {:induction false} ReleasedAppend(a: seq<Segment>, b: seq<Segment>, lost: set<Id>)
    ensures Released(a + b) == Released(a) + Released(b) && Kept(a + b, lost) == Kept(a, lost) + Kept(b, lost)
  {
    if b == [] {
      assert a + b == a;
    } else {
      var b0, x := b[..|b| - 1], b[|b| - 1];
      assert a + b == (a + b0) + [x] && b == b0 + [x];
      ReleasedAppend(a, b0, lost);
      ReleasedSnoc(a + b0, x);
      KeptSnoc(a + b0, x, lost);
    }
  }

  lemma {:induction false} MissingIsShorter(segs: seq<Segment>, lost: set<Id>)
    requires !Whole(segs, lost)
    ensures |Kept(segs, lost)| < |Released(segs)|
  {
    var segs0, x := segs[..|segs| - 1], segs[|segs| - 1];
    assert segs == segs0 + [x];
    KeptIsAllIffWhole(segs0, lost);
    if !Whole(segs0, lost) {
      MissingIsShorter(segs0, lost);
    }
  }

  /** A byte that differs from the one the output has where SSH will show it. */
  function Telltale(shown: nat, output: seq<Byte>): Byte
    requires shown < |output|
  {
    if output[shown] == 0 then 1 else 0
  }

  lemma TelltaleShows(kept: seq<Byte>, buffer: seq<Byte>, output: seq<Byte>, ssh: seq<Byte>, all: seq<Byte>)
    requires |kept| + |buffer| < |output|
    requires var x := Telltale(|kept| + |buffer|, output); ssh == kept + (buffer + [x]) && all == output + [x]
    ensures !(ssh <= all)
  {
    var k := |kept| + |buffer|;
    assert ssh[k] == Telltale(k, output) && all[k] == output[k];
  }

  /** All that was kept up to `u`, then what was buffered there, then the one byte more. */
  lemma ShownAtEnd(u: Path, t: Path, x: Byte)
    requires PathInv(u) && PathInv(t) && Spared(u, t)
    requires u.poller.AtPoll? && u.wire == [] && t.poller.AtPoll? && t.wire == [] && t.bridge.buffer == []
    requires t.bridge.chunks == u.bridge.chunks + [[x]]
    ensures t.ssh == Kept(u.bridge.segments, u.lost) + (u.bridge.buffer + [x])
    ensures Flatten(t.bridge.chunks) == Flatten(u.bridge.chunks) + [x]
  {
    var n := |u.bridge.segments|;
    var more := t.bridge.segments[n..];
    assert t.bridge.segments == u.bridge.segments + more;
    ReleasedAppend(u.bridge.segments, more, u.lost);
    KeptIsAllIffWhole(more, u.lost);
    FlattenSnoc(u.bridge.chunks, [x]);
    assert t.ssh + [] + [] == t.ssh && Released(t.bridge.segments) + [] == Released(t.bridge.segments);
    SameRest(Released(u.bridge.segments), Released(more), u.bridge.buffer, [x]);
  }

  lemma SameRest(a: seq<Byte>, rest: seq<Byte>, buffer: seq<Byte>, x: seq<Byte>)
    requires a + rest == (a + buffer) + x
    ensures rest == buffer + x
  {
    assert (a + rest)[|a|..] == rest && ((a + buffer) + x)[|a|..] == buffer + x;
  }

  /** From a session that goes on: the poll loop is idle, the wire empty and the reader about to read. */
  lemma Quieten(s: Path) returns (acts: seq<Act>, u: Path)
    requires PathInv(s) && GoesOn(s)
    ensures Reached(s, acts, u) && GoesOn(u) && u.poller.AtPoll? && u.wire == []
    ensures u.bridge.reader.AtSelect? && |u.bridge.buffer| <= READ_SIZE
    ensures Flatten(u.bridge.chunks) == Flatten(s.bridge.chunks) + InReader(s.bridge)
  {
    acts, u := Settle(s, s, []);
    acts, u := PollOnce(s, u, acts);
    acts, u := FinishTurn(s, u, acts);
  }

  lemma KeptFallsShort(u: Path)
    requires PathInv(u) && !Whole(u.bridge.segments, u.lost)
    ensures |Kept(u.bridge.segments, u.lost)| + |u.bridge.buffer| < |Flatten(u.bridge.chunks)|
  {
    MissingIsShorter(u.bridge.segments, u.lost);
    assert |Released(u.bridge.segments) + u.bridge.buffer| == |Flatten(u.bridge.chunks)|;
  }

  lemma ReadAndPoll(u: Path, x: Byte) returns (acts: seq<Act>, t: Path)
    requires PathInv(u) && GoesOn(u) && u.poller.AtPoll? && u.wire == []
    requires u.bridge.reader.AtSelect? && |u.bridge.buffer| <= READ_SIZE
    ensures Reached(u, acts, t)
    ensures t.ssh == Kept(u.bridge.segments, u.lost) + (u.bridge.buffer + [x])
    ensures Flatten(t.bridge.chunks) == Flatten(u.bridge.chunks) + [x]
  {
    acts, t := ReadOne(u, u, [], x);
    acts, t := PollOnce(u, t, acts);
    ShownAtEnd(u, t, x);
  }

  lemma ShowHole(u: Path) returns (acts: seq<Act>, t: Path)
    requires PathInv(u) && GoesOn(u) && u.poller.AtPoll? && u.wire == []
    requires u.bridge.reader.AtSelect? && |u.bridge.buffer| <= READ_SIZE && !Whole(u.bridge.segments, u.lost)
    ensures Reached(u, acts, t) && !(t.ssh <= Flatten(t.bridge.chunks))
  {
    var kept, buffer, output := Kept(u.bridge.segments, u.lost), u.bridge.buffer, Flatten(u.bridge.chunks);
    KeptFallsShort(u);
    acts, t := ReadAndPoll(u, Telltale(|kept| + |buffer|, output));
    TelltaleShows(kept, buffer, output, t.ssh, Flatten(t.bridge.chunks));
  }

  lemma {:induction false} MissingAlong(s: Path, acts: seq<Act>, t: Path)
    requires PathInv(s) && Continue(s, acts) == Some(t) && Whole(t.bridge.segments, t.lost)
    ensures Whole(s.bridge.segments, s.lost)
  {
    if acts != [] {
      var mid := Continue(s, acts[..|acts| - 1]).value;
      InvOn(s, acts[..|acts| - 1], mid);
      MissingStays(mid, acts[|acts| - 1]);
      MissingAlong(s, acts[..|acts| - 1], mid);
    }
  }

  lemma MissingShows(s: Path)
    requires PathInv(s) && GoesOn(s) && !Whole(s.bridge.segments, s.lost)
    ensures CanShowHole(s)
  {
    var before, u := Quieten(s);
    if Whole(u.bridge.segments, u.lost) {
      MissingAlong(s, before, u);
    } else {
      var after, t := ShowHole(u);
      HoleFrom(s, before, u, after, t);
    }
  }

  lemma HoleFrom(s: Path, before: seq<Act>, u: Path, after: seq<Act>, t: Path)
    requires Reached(s, before, u) && Reached(u, after, t) && !(t.ssh <= Flatten(t.bridge.chunks))
    ensures CanShowHole(s)
  {
    ContinueAppend(s, before, u, after, t);
    SparedTrans(s, u, t);
  }

  /**
   In every reachable state of a session that goes on: SSH can come to show something that is no prefix of the output,
   without another byte going missing, exactly when bytes have gone missing already.
   */
  lemma HoleCanShowIff(acts: seq<Act>, s: Path)
    requires Play(PROGRAM_CODEC, acts) == Some(s) && GoesOn(s)
    ensures CanShowHole(s) <==> !Whole(s.bridge.segments, s.lost)
  {
    if Whole(s.bridge.segments, s.lost) {
      NoHoleWhenWhole(acts, s);
    } else {
      ProgramCodecIsFaithful();
      PathInvAlways(PROGRAM_CODEC, acts, s);
      MissingShows(s);
    }
  }
}
