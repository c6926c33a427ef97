/**
 When keystrokes can change places.  The forward loop gives a post up when its connection breaks, whether or not the
 bridge's handler is done with it, and posts the next item.  From any state the order can break, without another
 pending post given up, exactly when such an abandoned post still waits with bytes and later bytes are at hand.
 */
module InputOrders {
  import opened Wrappers
  import opened Bridge
  import opened BridgeInvariants
  import opened InputPath

  // ---------- late writes ----------

  /** An item sent after the one that post `r` carries has reached the PTY already. */
  predicate Overtaken(s: Path, r: Id) {
    r in s.post && exists j | 0 <= j < |s.bridge.ptyIn| :: IsLater(s, j, r)
  }

  predicate IsLater(s: Path, j: nat, r: Id)
    requires j < |s.bridge.ptyIn| && r in s.post
  {
    s.bridge.ptyIn[j].owner in s.post && s.post[s.bridge.ptyIn[j].owner] > s.post[r]
  }

  /** A write by a post that was overtaken. */
  predicate LateWrite(s: Path, x: Act) {
    x.OnBridge? && x.a.PtyWrite? && Overtaken(s, x.a.req)
  }

  /** Only a post that was given up while pending can be overtaken. */
  lemma LateWriteIsAbandoned(s: Path, x: Act)
    requires Can(s, x) && PathInv(s) && LateWrite(s, x)
    ensures x.a.req in s.abandoned
  {
    var j :| 0 <= j < |s.bridge.ptyIn| && IsLater(s, j, x.a.req);
    assert Arrived(s, j);
  }

  // ---------- what can still happen ----------

  /** Some continuation that gives up no further pending post breaks the order. */
  ghost predicate CanBreak(s: Path) {
    exists acts: seq<Act>, t: Path :: Continue(s, acts) == Some(t) && t.abandoned == s.abandoned && !InOrder(t)
  }

  /** A post that was given up still waits to give the PTY its bytes. */
  predicate BytesPending(s: Path) {
    exists r <- s.abandoned :: Waits(s, r)
  }

  predicate Waits(s: Path, r: Id) {
    r in s.bridge.requests && s.bridge.requests[r].Checked? && s.bridge.requests[r].input != []
  }

  predicate LaterWritten(s: Path, r: Id)
    requires r in s.post
  {
    exists j | 0 <= j < |s.bridge.ptyIn| :: IsLater(s, j, r) && s.bridge.ptyIn[j].bytes != []
  }

  predicate LaterWaits(s: Path, r: Id)
    requires r in s.post
  {
    exists q <- s.post :: s.post[q] > s.post[r] && Waits(s, q)
  }

  predicate Carries(s: Path, line: string) {
    s.codec.use(line).Post? && s.codec.use(line).input != []
  }

  /** More bytes can be accepted: the process runs, and they are on the wire or can still be typed. */
  predicate MoreCanCome(s: Path) {
    s.bridge.running && (s.typing || exists i | 0 <= i < |s.wire| :: Carries(s, s.wire[i]))
  }

  /** A post that was given up waits with bytes, and later bytes are written, waiting or can still come. */
  predicate Fragile(s: Path) {
    !s.bridge.halted && exists r <- s.abandoned :: r in s.post && Endangered(s, r)
  }

  predicate Endangered(s: Path, r: Id)
    requires r in s.post
  {
    Waits(s, r) && (LaterWritten(s, r) || LaterWaits(s, r) || MoreCanCome(s))
  }

  // ---------- otherwise the order stays ----------

  lemma PlacesStay(s: Path, x: Act)
    requires Can(s, x) && PathInv(s) && !(x.OnBridge? && x.a.PtyWrite?)
    ensures Do(s, x).bridge.ptyIn == s.bridge.ptyIn
    ensures forall r <- s.post :: r in Do(s, x).post && Do(s, x).post[r] == s.post[r]
  {
    match x {
      case OnBridge(a) => InputStep(s.bridge, a);
      case TakeLine(req, arrives) =>
        var u := s.codec.use(s.wire[0]);
        if u.Post? && arrives {
          ArriveStep(s.bridge, req, u.input);
        }
      case _ =>
    }
  }

  lemma SameOrder(s: Path, t: Path)
    requires OrderInv(s) && InOrder(s) && t.bridge.ptyIn == s.bridge.ptyIn
    requires forall r <- s.post :: r in t.post && t.post[r] == s.post[r]
    ensures InOrder(t)
  {
    forall j, k | 0 <= j < k < |t.bridge.ptyIn| ensures BytesInOrder(t, j, k) {
      assert BytesInOrder(s, j, k) && Arrived(s, j) && Arrived(s, k);
    }
  }

  /** What a write appends, and where the earlier inputs stand beside it. */
  lemma WriteAppends(s: Path, a: Action)
    requires Can(s, OnBridge(a)) && PathInv(s) && a.PtyWrite?
    ensures var t := Do(s, OnBridge(a));
      && a.req in s.post && t.post == s.post && |t.bridge.ptyIn| == |s.bridge.ptyIn| + 1
      && t.bridge.ptyIn[..|s.bridge.ptyIn|] == s.bridge.ptyIn
      && t.bridge.ptyIn[|s.bridge.ptyIn|] == Input(a.req, s.bridge.requests[a.req].input[..a.count])
    ensures forall j | 0 <= j < |s.bridge.ptyIn| ::
      var q := s.bridge.ptyIn[j].owner; q in s.post && (s.post[q] < s.post[a.req] || IsLater(s, j, a.req))
  {
    InputStep(s.bridge, a);
    forall j | 0 <= j < |s.bridge.ptyIn|
      ensures var q := s.bridge.ptyIn[j].owner; q in s.post && (s.post[q] < s.post[a.req] || IsLater(s, j, a.req))
    {
      assert Arrived(s, j);
    }
  }

  lemma OrderAppended(s: Path, t: Path, r: Id)
    requires InOrder(s) && r in s.post && t.post == s.post && |t.bridge.ptyIn| == |s.bridge.ptyIn| + 1
    requires t.bridge.ptyIn[..|s.bridge.ptyIn|] == s.bridge.ptyIn && t.bridge.ptyIn[|s.bridge.ptyIn|].owner == r
    requires forall j | 0 <= j < |s.bridge.ptyIn| ::
      var q := s.bridge.ptyIn[j].owner; q in s.post && (s.post[q] < s.post[r] || IsLater(s, j, r))
    requires !LaterWritten(s, r) || t.bridge.ptyIn[|s.bridge.ptyIn|].bytes == []
    ensures InOrder(t)
  {
    var n := |s.bridge.ptyIn|;
    forall j, k | 0 <= j < k < n + 1 ensures BytesInOrder(t, j, k) {
      assert t.bridge.ptyIn[j] == s.bridge.ptyIn[j];
      if k < n {
        assert BytesInOrder(s, j, k) && t.bridge.ptyIn[k] == s.bridge.ptyIn[k];
      }
    }
  }

  lemma WriteStaysInOrder(s: Path, a: Action)
    requires Can(s, OnBridge(a)) && PathInv(s) && a.PtyWrite? && InOrder(s) && !Fragile(s)
    ensures InOrder(Do(s, OnBridge(a)))
  {
    WriteAppends(s, a);
    if LaterWritten(s, a.req) {
      var j :| 0 <= j < |s.bridge.ptyIn| && IsLater(s, j, a.req) && s.bridge.ptyIn[j].bytes != [];
      assert Overtaken(s, a.req);
      LateWriteIsAbandoned(s, OnBridge(a));
      assert !Endangered(s, a.req);
    }
    OrderAppended(s, Do(s, OnBridge(a)), a.req);
  }

  /** A post that waits after a step waited before it, or was taken off the wire in it. */
  lemma WaitedBefore(s: Path, x: Act, q: Id)
    requires Can(s, x) && PathInv(s) && Waits(Do(s, x), q)
    ensures Waits(s, q) || (q !in s.post && x.TakeLine? && s.bridge.running && Carries(s, s.wire[0]))
  {
    if x.OnBridge? {
      RequestStep(s.bridge, x.a, q);
    } else if x.TakeLine? {
      var u := s.codec.use(s.wire[0]);
      if u.Post? && x.arrives {
        ArriveStep(s.bridge, x.req, u.input);
      }
    }
  }

  lemma WaitsAgain(s: Path, x: Act, r: Id)
    requires Can(s, x) && PathInv(s) && LaterWaitsAfter(s, x, r)
    ensures LaterWaits(s, r) || MoreCanCome(s)
  {
    var t := Do(s, x);
    var q :| q in t.post && t.post[q] > t.post[r] && Waits(t, q);
    WaitedBefore(s, x, q);
    PlacesKnown(s, x);
  }

  predicate LaterWaitsAfter(s: Path, x: Act, r: Id)
    requires Can(s, x)
  {
    r in s.post && r in Do(s, x).post && LaterWaits(Do(s, x), r)
  }

  /** Posts keep their places; a new one comes off the wire. */
  lemma PlacesKnown(s: Path, x: Act)
    requires Can(s, x) && PathInv(s)
    ensures forall r <- s.post :: r in Do(s, x).post && Do(s, x).post[r] == s.post[r]
    ensures forall r <- s.bridge.requests :: r in Do(s, x).post ==> r in s.post
  {
    if x.OnBridge? && x.a.PtyWrite? {
      WriteAppends(s, x.a);
    } else {
      PlacesStay(s, x);
    }
  }

  lemma WrittenAgain(s: Path, x: Act, r: Id)
    requires Can(s, x) && PathInv(s) && r in s.post && r in Do(s, x).post && LaterWritten(Do(s, x), r)
    ensures LaterWritten(s, r) || LaterWaits(s, r)
  {
    var t := Do(s, x);
    var j :| 0 <= j < |t.bridge.ptyIn| && IsLater(t, j, r) && t.bridge.ptyIn[j].bytes != [];
    PlacesKnown(s, x);
    if x.OnBridge? && x.a.PtyWrite? {
      WriteAppends(s, x.a);
      if j < |s.bridge.ptyIn| {
        assert Arrived(s, j) && t.bridge.ptyIn[j] == s.bridge.ptyIn[j];
        assert IsLater(s, j, r);
      } else {
        assert Waits(s, x.a.req);
      }
    } else {
      PlacesStay(s, x);
      assert Arrived(s, j);
      assert IsLater(s, j, r);
    }
  }

  lemma RunningStays(s: Path, x: Act)
    requires Can(s, x) && PathInv(s)
    ensures Do(s, x).bridge.running ==> s.bridge.running
    ensures s.bridge.halted ==> Do(s, x).bridge.halted
  {
    match x {
      case OnBridge(a) => Untouched(s.bridge, a);
      case TakeLine(req, arrives) =>
        var u := s.codec.use(s.wire[0]);
        if u.Post? && arrives {
          ArriveStep(s.bridge, req, u.input);
        }
      case _ =>
    }
  }

  lemma CouldComeBefore(s: Path, x: Act)
    requires Can(s, x) && PathInv(s) && MoreCanCome(Do(s, x))
    ensures MoreCanCome(s)
  {
    var t := Do(s, x);
    RunningStays(s, x);
    if !s.typing {
      var i :| 0 <= i < |t.wire| && Carries(t, t.wire[i]);
      if x.TakeLine? {
        assert t.wire[i] == s.wire[i + 1];
      } else if x.SendItem? {
        assert s.codec.use(s.codec.write(x.item)) == ItemUse(x.item);
        assert i < |s.wire|;
      }
      assert exists k | 0 <= k < |s.wire| :: Carries(s, s.wire[k]);
    }
  }

  lemma AbandonedGrows(s: Path, x: Act)
    requires Can(s, x)
    ensures s.abandoned <= Do(s, x).abandoned
  {
  }

  lemma EndangeredBefore(s: Path, x: Act, r: Id)
    requires Can(s, x) && PathInv(s) && r in s.post && r in Do(s, x).post && Endangered(Do(s, x), r)
    ensures Endangered(s, r)
  {
    var t := Do(s, x);
    WaitedBefore(s, x, r);
    if LaterWritten(t, r) {
      WrittenAgain(s, x, r);
    } else if LaterWaits(t, r) {
      WaitsAgain(s, x, r);
    } else {
      CouldComeBefore(s, x);
    }
  }

  /** Danger does not arise on its own: only giving up another post brings it. */
  lemma FragileBefore(s: Path, x: Act)
    requires Can(s, x) && PathInv(s) && Fragile(Do(s, x)) && Do(s, x).abandoned == s.abandoned
    ensures Fragile(s)
  {
    var t := Do(s, x);
    RunningStays(s, x);
    PlacesKnown(s, x);
    var r :| r in t.abandoned && r in t.post && Endangered(t, r);
    EndangeredBefore(s, x, r);
  }

  lemma {:induction false} StaysInOrder(s: Path, acts: seq<Act>, t: Path)
    requires PathInv(s) && Continue(s, acts) == Some(t)
    ensures PathInv(t) && s.abandoned <= t.abandoned
    ensures InOrder(s) && !Fragile(s) && t.abandoned == s.abandoned ==> InOrder(t) && !Fragile(t)
  {
    if acts != [] {
      var mid, x := Continue(s, acts[..|acts| - 1]).value, acts[|acts| - 1];
      StaysInOrder(s, acts[..|acts| - 1], mid);
      PathInvKept(mid, x);
      AbandonedGrows(mid, x);
      if InOrder(s) && !Fragile(s) && t.abandoned == s.abandoned {
        if Fragile(t) {
          FragileBefore(mid, x);
        }
        if x.OnBridge? && x.a.PtyWrite? {
          WriteStaysInOrder(mid, x.a);
        } else {
          PlacesStay(mid, x);
          SameOrder(mid, t);
        }
      }
    }
  }

  // ---------- with one it can break ----------

  /** Post `r` was given up and still holds bytes, and the process runs. */
  ghost predicate Ripe(s: Path, r: Id) {
    PathInv(s) && r in s.abandoned && Waits(s, r) && s.bridge.running && !s.bridge.halted
  }

  lemma Go(s: Path, acts: seq<Act>, mid: Path, x: Act) returns (more: seq<Act>, t: Path)
    requires Continue(s, acts) == Some(mid) && Can(mid, x) && PathInv(mid)
    ensures t == Do(mid, x) && Continue(s, more) == Some(t) && PathInv(t)
  {
    more, t := OneMore(s, acts, mid, x);
    PathInvKept(mid, x);
  }

  /** The post under way, if any, is written and answered. */
  lemma FinishPost(s0: Path, s: Path, acts0: seq<Act>, r: Id) returns (acts: seq<Act>, t: Path)
    requires Continue(s0, acts0) == Some(s) && Ripe(s, r)
    ensures Continue(s0, acts) == Some(t) && Ripe(t, r) && t.posting.None? && t.abandoned == s.abandoned
    ensures t.typing == s.typing && t.wire == s.wire && t.codec == s.codec
  {
    acts, t := acts0, s;
    if s.posting.Some? {
      var q := s.posting.value;
      if s.bridge.requests[q].Checked? {
        WriteStep(s.bridge, q, s.bridge.requests[q].input);
        acts, t := Go(s0, acts, s, OnBridge(PtyWrite(q, |s.bridge.requests[q].input|)));
      }
      acts, t := Go(s0, acts, t, PostReturns);
    }
  }

  /** What the relay has sent already is taken off the wire; its connections fail at once, so no post is pending. */
  lemma {:induction false} DrainWire(s0: Path, s: Path, acts0: seq<Act>, r: Id) returns (acts: seq<Act>, t: Path)
    requires Continue(s0, acts0) == Some(s) && Ripe(s, r) && s.posting.None?
    ensures Continue(s0, acts) == Some(t) && Ripe(t, r) && t.posting.None? && t.abandoned == s.abandoned
    ensures t.wire == [] && t.typing == s.typing
    decreases |s.wire|
  {
    if s.wire == [] {
      return acts0, s;
    }
    var id := FreshId(s.bridge.requests.Keys + s.post.Keys);
    acts, t := Go(s0, acts0, s, TakeLine(id, false));
    TakenOff(s, id);
    acts, t := DrainWire(s0, t, acts, r);
  }

  lemma TakenOff(s: Path, id: Id)
    requires Can(s, TakeLine(id, false))
    ensures var t := Do(s, TakeLine(id, false));
      && t.wire == s.wire[1..] && t.bridge == s.bridge && t.posting == s.posting
      && t.abandoned == s.abandoned && t.typing == s.typing && t.codec == s.codec
  {
  }

  lemma TypeOne(s0: Path, s: Path, acts0: seq<Act>, r: Id) returns (acts: seq<Act>, t: Path)
    requires Continue(s0, acts0) == Some(s) && Ripe(s, r) && s.posting.None? && s.wire == [] && s.typing
    ensures Continue(s0, acts) == Some(t) && Ripe(t, r) && t.posting.None? && t.abandoned == s.abandoned
    ensures |t.wire| == 1 && t.codec.use(t.wire[0]) == Post([1])
  {
    assert s.codec.use(s.codec.write(Keys([1]))) == Post([1]);
    acts, t := Go(s0, acts0, s, Type([1], true));
  }

  /** A line on the wire that carries bytes is posted, and those before it are dropped. */
  lemma {:induction false} LaterItem(s0: Path, s: Path, acts0: seq<Act>, r: Id) returns (acts: seq<Act>, t: Path, q: Id)
    requires Continue(s0, acts0) == Some(s) && Ripe(s, r) && s.posting.None?
    requires exists i | 0 <= i < |s.wire| :: Carries(s, s.wire[i])
    ensures Continue(s0, acts) == Some(t) && Ripe(t, r) && t.abandoned == s.abandoned
    ensures r in t.post && q in t.post && t.post[r] < t.post[q] && Waits(t, q)
    decreases |s.wire|
  {
    q := FreshId(s.bridge.requests.Keys + s.post.Keys);
    if Carries(s, s.wire[0]) {
      ArriveStep(s.bridge, q, s.codec.use(s.wire[0]).input);
      acts, t := Go(s0, acts0, s, TakeLine(q, true));
    } else {
      acts, t := Go(s0, acts0, s, TakeLine(q, false));
      TakenOff(s, q);
      CarriedOn(s, t);
      acts, t, q := LaterItem(s0, t, acts, r);
    }
  }

  lemma CarriedOn(s: Path, t: Path)
    requires s.wire != [] && t.wire == s.wire[1..] && t.codec == s.codec && !Carries(s, s.wire[0])
    requires exists i | 0 <= i < |s.wire| :: Carries(s, s.wire[i])
    ensures exists i | 0 <= i < |t.wire| :: Carries(t, t.wire[i])
  {
    var i :| 0 <= i < |s.wire| && Carries(s, s.wire[i]);
    assert t.wire[i - 1] == s.wire[i];
  }

  /** Both posts write, the later first. */
  lemma BothWrite(s0: Path, s: Path, acts0: seq<Act>, r: Id, q: Id) returns (acts: seq<Act>, t: Path)
    requires Continue(s0, acts0) == Some(s) && PathInv(s) && !s.bridge.halted && Waits(s, r) && Waits(s, q)
    requires r in s.post && q in s.post && s.post[r] < s.post[q]
    ensures Continue(s0, acts) == Some(t) && t.abandoned == s.abandoned && !InOrder(t)
  {
    var early, late := s.bridge.requests[r].input, s.bridge.requests[q].input;
    WriteStep(s.bridge, q, late);
    acts, t := Go(s0, acts0, s, OnBridge(PtyWrite(q, |late|)));
    WriteStep(t.bridge, r, early);
    acts, t := Go(s0, acts, t, OnBridge(PtyWrite(r, |early|)));
    var n := |s.bridge.ptyIn|;
    assert t.bridge.ptyIn[n] == Input(q, late) && t.bridge.ptyIn[n + 1] == Input(r, early);
    assert !BytesInOrder(t, n, n + 1);
  }

  lemma LateInput(s: Path, t: Path, j: nat, x: Input)
    requires j < |s.bridge.ptyIn| && x.owner in s.post && IsLater(s, j, x.owner)
    requires s.bridge.ptyIn[j].bytes != [] && x.bytes != []
    requires t.post == s.post && t.bridge.ptyIn == s.bridge.ptyIn + [x]
    ensures !InOrder(t)
  {
    assert t.bridge.ptyIn[j] == s.bridge.ptyIn[j] && t.bridge.ptyIn[|s.bridge.ptyIn|] == x;
    assert !BytesInOrder(t, j, |s.bridge.ptyIn|);
  }

  /** The later item has been written already, so the abandoned post's own write is enough. */
  lemma WriteBreaks(s: Path, r: Id)
    requires PathInv(s) && !s.bridge.halted && r in s.post && Waits(s, r) && LaterWritten(s, r)
    ensures CanBreak(s)
  {
    var j :| 0 <= j < |s.bridge.ptyIn| && IsLater(s, j, r) && s.bridge.ptyIn[j].bytes != [];
    var input := s.bridge.requests[r].input;
    WriteStep(s.bridge, r, input);
    var acts, t := Go(s, [], s, OnBridge(PtyWrite(r, |input|)));
    LateInput(s, t, j, Input(r, input));
  }

  lemma MoreBreaks(s: Path, r: Id)
    requires Ripe(s, r) && MoreCanCome(s)
    ensures CanBreak(s)
  {
    var acts, t := FinishPost(s, s, [], r);
    if s.typing {
      acts, t := DrainWire(s, t, acts, r);
      acts, t := TypeOne(s, t, acts, r);
      assert Carries(t, t.wire[0]);
    } else {
      var i :| 0 <= i < |s.wire| && Carries(s, s.wire[i]);
      assert Carries(t, t.wire[i]);
    }
    var q;
    acts, t, q := LaterItem(s, t, acts, r);
    acts, t := BothWrite(s, t, acts, r, q);
  }

  lemma FragileBreaks(s: Path)
    requires PathInv(s) && Fragile(s)
    ensures CanBreak(s)
  {
    var r :| r in s.abandoned && r in s.post && Endangered(s, r);
    if LaterWritten(s, r) {
      WriteBreaks(s, r);
    } else if LaterWaits(s, r) {
      var q :| q in s.post && s.post[q] > s.post[r] && Waits(s, q);
      var acts, t := BothWrite(s, s, [], r, q);
    } else {
      MoreBreaks(s, r);
    }
  }

  // ---------- the theorem ----------

  /**
   In every reachable state with the order intact so far, the order can break without another pending post given up
   exactly when a post that was given up still waits with bytes, and a later item with bytes has been written, waits
   too, or can still be accepted.
   */
  lemma OrderCanBreakIff(acts: seq<Act>, s: Path)
    requires Play(PROGRAM_CODEC, acts) == Some(s) && InOrder(s)
    ensures CanBreak(s) <==> Fragile(s)
  {
    ProgramCodecIsFaithful();
    PathInvAlways(PROGRAM_CODEC, acts, s);
    if Fragile(s) {
      FragileBreaks(s);
    } else {
      forall more: seq<Act>, t: Path | Continue(s, more) == Some(t) && t.abandoned == s.abandoned ensures InOrder(t) {
        StaysInOrder(s, more, t);
      }
    }
  }

  /** While the user types to a running process, what waits is all that matters. */
  lemma OrderCanBreakWhileTyping(acts: seq<Act>, s: Path)
    requires Play(PROGRAM_CODEC, acts) == Some(s) && InOrder(s)
    requires s.typing && s.bridge.running && !s.bridge.halted
    ensures CanBreak(s) <==> BytesPending(s)
  {
    OrderCanBreakIff(acts, s);
    ProgramCodecIsFaithful();
    PathInvAlways(PROGRAM_CODEC, acts, s);
    if BytesPending(s) {
      var r :| r in s.abandoned && Waits(s, r);
      assert Endangered(s, r);
    }
  }

  lemma FragileIsPending(s: Path)
    requires Fragile(s)
    ensures BytesPending(s)
  {
    var r :| r in s.abandoned && r in s.post && Endangered(s, r);
  }

  /** No abandoned post with bytes to give: the order holds over every continuation that gives up no other. */
  lemma OrderIsSafe(acts: seq<Act>, s: Path)
    requires Play(PROGRAM_CODEC, acts) == Some(s) && InOrder(s) && !BytesPending(s)
    ensures !CanBreak(s)
  {
    OrderCanBreakIff(acts, s);
    if Fragile(s) {
      FragileIsPending(s);
    }
  }
}
