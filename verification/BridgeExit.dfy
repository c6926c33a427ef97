/** What a client can still be sent once the process is gone, and when its exit frame really is the last of its data. */
module BridgeExits {
  import opened Wrappers
  import opened Bridge
  import opened BridgeInvariants

  // ---------- the reader's budget ----------

  /** How many data frames a connection was sent; none before it is registered. */
  function DataSent(s: State, c: Id): nat {
    if c in s.clients then |DataOf(s.clients[c].sends)| else 0
  }

  function LateData(s: State, c: Id): nat {
    if c in s.clients then DataAfterExit(s.clients[c].sends) else 0
  }

  lemma NewIsEmpty(s: State, a: Action, c: Id)
    requires Enabled(s, a) && c !in s.clients && c in Apply(s, a).clients
    ensures Apply(s, a).clients[c].sends == []
  {
    ClientsAlone(s, a);
  }

  lemma ReaderPays(s: State, a: Action, c: Id)
    requires Enabled(s, a) && StreamInv(s) && s.done && c !in s.clients && ReaderMoves(a) && !a.StartChild?
    ensures Budget(Apply(s, a), c) <= Budget(s, c)
  {
  }

  lemma DoneStays(s: State, a: Action)
    requires Enabled(s, a) && s.done
    ensures Apply(s, a).done
  {
  }

  lemma UnregisteredStep(s: State, a: Action, c: Id)
    requires Enabled(s, a) && LifeInv(s) && StreamInv(s) && s.done && c !in s.clients
    ensures var t := Apply(s, a);
      && t.done && Budget(t, c) <= Budget(s, c)
      && (c in t.clients ==> t.clients[c].sends == [])
  {
    DoneStays(s, a);
    ReaderAlone(s, a);
    if ReaderMoves(a) {
      ReaderPays(s, a, c);
    }
    if c in Apply(s, a).clients {
      NewIsEmpty(s, a, c);
    }
  }

  /** Once `done` is closed every data frame is paid for out of the one chunk the reader may still hold. */
  lemma PaidStep(s: State, a: Action, c: Id)
    requires Enabled(s, a) && Inv(s) && s.done
    ensures var t := Apply(s, a);
      && t.done && (c in s.clients ==> c in t.clients)
      && DataSent(t, c) + Budget(t, c) <= DataSent(s, c) + Budget(s, c)
      && LateData(t, c) + Budget(t, c) <= LateData(s, c) + Budget(s, c)
  {
    if c in s.clients {
      ExitControl(s, a, c);
      SendsOf(s, a, c);
      var sends, more := s.clients[c].sends, Apply(s, a).clients[c].sends;
      if more != sends {
        SendSnoc(sends, more[|sends|]);
      }
    } else {
      UnregisteredStep(s, a, c);
    }
  }

  lemma {:induction false} PaidAlong(s: State, acts: seq<Action>, t: State, c: Id)
    requires Inv(s) && s.done && Exec(s, acts) == Some(t)
    ensures t.done && (c in s.clients ==> c in t.clients)
    ensures DataSent(t, c) + Budget(t, c) <= DataSent(s, c) + Budget(s, c)
    ensures LateData(t, c) + Budget(t, c) <= LateData(s, c) + Budget(s, c)
  {
    if acts != [] {
      var mid := Exec(s, acts[..|acts| - 1]).value;
      PaidAlong(s, acts[..|acts| - 1], mid, c);
      InvAlong(s, acts[..|acts| - 1], mid);
      PaidStep(mid, acts[|acts| - 1], c);
    }
  }

  /** Once `done` is closed every client, old or new, is sent at most one more chunk, before or after its exit. */
  lemma OneMoreBroadcast(s: State, t: State, c: Id)
    requires Reachable(s) && s.done && Leads(s, t)
    ensures DataSent(t, c) <= DataSent(s, c) + Budget(s, c) <= DataSent(s, c) + 1
  {
    ReachableInv(s);
    var acts :| Exec(s, acts) == Some(t);
    PaidAlong(s, acts, t, c);
  }

  // ---------- when one does come after exit ----------

  lemma {:induction false} ExecCons(s: State, a: Action, acts: seq<Action>)
    requires Enabled(s, a)
    ensures Exec(s, [a] + acts) == Exec(Apply(s, a), acts)
  {
    var all := [a] + acts;
    if acts == [] {
      assert all[..0] == [] && all == [a];
    } else {
      assert all[..|all| - 1] == [a] + acts[..|acts| - 1];
      ExecCons(s, a, acts[..|acts| - 1]);
    }
  }

  lemma LeadsFirst(s: State, a: Action, t: State)
    requires Enabled(s, a) && Leads(Apply(s, a), t)
    ensures Leads(s, t)
  {
    var acts :| Exec(Apply(s, a), acts) == Some(t);
    ExecCons(s, a, acts);
    assert Exec(s, [a] + acts) == Some(t);
  }

  /** A live client has its exit, and the session goes on. */
  predicate Told(s: State, c: Id) {
    !s.halted && c in s.clients && s.clients[c].live && Exits(s.clients[c].sends) > 0
  }

  ghost predicate CanFollow(s: State, c: Id) {
    exists t :: Leads(s, t) && LateData(t, c) > 0
  }

  lemma FollowFirst(s: State, a: Action, c: Id)
    requires Enabled(s, a) && CanFollow(Apply(s, a), c)
    ensures CanFollow(s, c)
  {
    var t :| Leads(Apply(s, a), t) && LateData(t, c) > 0;
    LeadsFirst(s, a, t);
  }

  lemma SendingFollows(s: State, c: Id)
    requires Told(s, c) && s.reader.Sending? && c in s.reader.todo
    ensures CanFollow(s, c)
  {
    var t := Apply(s, ReaderSend(c, true));
    SendSnoc(s.clients[c].sends, Send(DataFrame(s.reader.chunk), true));
    assert Exec(t, []) == Some(t);
    assert Leads(t, t) && LateData(t, c) > 0;
    FollowFirst(s, ReaderSend(c, true), c);
  }

  lemma BufferedFollows(s: State, c: Id)
    requires Told(s, c) && s.reader.Buffered?
    ensures CanFollow(s, c)
  {
    SendingFollows(Apply(s, ReaderLock), c);
    FollowFirst(s, ReaderLock, c);
  }

  lemma HoldingFollows(s: State, c: Id)
    requires Told(s, c) && s.reader.Holding?
    ensures CanFollow(s, c)
  {
    BufferedFollows(Apply(s, ReaderBuffer), c);
    FollowFirst(s, ReaderBuffer, c);
  }

  lemma ReadFollows(s: State, c: Id)
    requires Told(s, c) && s.reader.InRead?
    ensures CanFollow(s, c)
  {
    HoldingFollows(Apply(s, ReaderRead([7])), c);
    FollowFirst(s, ReaderRead([7]), c);
  }

  /**
   A client that has its exit frame, and no data since, can still be sent data exactly while the reader is inside a
   read, or holds a chunk it has not sent that client.
   */
  lemma DataCanFollowIff(s: State, c: Id)
    requires Reachable(s) && Told(s, c) && LateData(s, c) == 0
    ensures CanFollow(s, c) <==> Budget(s, c) == 1
  {
    ReachableInv(s);
    assert ClientExit(s, c);
    if Budget(s, c) == 1 {
      if s.reader.InRead? {
        ReadFollows(s, c);
      } else if s.reader.Holding? {
        HoldingFollows(s, c);
      } else if s.reader.Buffered? {
        BufferedFollows(s, c);
      } else {
        SendingFollows(s, c);
      }
    } else {
      forall t | Leads(s, t) ensures LateData(t, c) == 0 {
        var acts :| Exec(s, acts) == Some(t);
        PaidAlong(s, acts, t, c);
      }
    }
  }
}
