/**
 The local proxy's two loops between the container's HTTP bridge and the relay's WebSocket, and the way they share
 the `done` channel.
 */
module LocalProxies {
  import opened Wrappers
  import opened Bytes
  import opened Json
  import opened Messages
  import opened Bridge
  import opened Framing

  /**
   The proxy's end of the relay's WebSocket.  Which of its writes succeed is up to the network: `accepts` answers for
   the first, the second and so on.  One that succeeds delivers the whole line, one that fails delivers nothing.
   */
  class Socket {
    const accepts: nat -> bool
    var tried: seq<string>
    var sent: seq<string>

    constructor (accepts: nat -> bool)
      ensures this.accepts == accepts && tried == [] && sent == []
    {
      this.accepts, tried, sent := accepts, [], [];
    }

    method Write(line: string) returns (ok: bool)
      modifies this
      ensures ok == accepts(|old(tried)|)
      ensures tried == old(tried) + [line]
      ensures sent == if ok then old(sent) + [line] else old(sent)
    {
      ok := accepts(|tried|);
      tried := tried + [line];
      if ok {
        sent := sent + [line];
      }
    }
  }

  /** The container's `/write` endpoint as the proxy sees it: a post may fail, and nothing is retried. */
  class Container {
    const accepts: nat -> bool
    var tried: seq<string>
    var taken: seq<string>

    constructor (accepts: nat -> bool)
      ensures this.accepts == accepts && tried == [] && taken == []
    {
      this.accepts, tried, taken := accepts, [], [];
    }

    method Post(body: string) returns (ok: bool)
      modifies this
      ensures ok == accepts(|old(tried)|)
      ensures tried == old(tried) + [body]
      ensures taken == if ok then old(taken) + [body] else old(taken)
    {
      ok := accepts(|tried|);
      tried := tried + [body];
      if ok {
        taken := taken + [body];
      }
    }
  }

  // ---------- what is due ----------

  /** The lines up to the first exit message, and that one. */
  function ThroughExit(lines: seq<string>): seq<string> {
    Through(ProxySeesExit, lines)
  }

  predicate NoExit(lines: seq<string>) {
    Nowhere(ProxySeesExit, lines)
  }

  function Through(sees: string -> bool, lines: seq<string>): seq<string> {
    if lines == [] then []
    else if sees(lines[0]) then [lines[0]]
    else [lines[0]] + Through(sees, lines[1..])
  }

  predicate Nowhere(sees: string -> bool, lines: seq<string>) {
    forall i | 0 <= i < |lines| :: !sees(lines[i])
  }

  lemma {:induction false} ThroughAppend(sees: string -> bool, a: seq<string>, b: seq<string>)
    requires Nowhere(sees, a)
    ensures Through(sees, a + b) == a + Through(sees, b)
  {
    if a == [] {
      assert a + b == b;
    } else {
      assert (a + b)[1..] == a[1..] + b;
      ThroughAppend(sees, a[1..], b);
      assert a == [a[0]] + a[1..];
    }
  }

  lemma ThroughNone(sees: string -> bool, a: seq<string>)
    requires Nowhere(sees, a)
    ensures Through(sees, a) == a
  {
    ThroughAppend(sees, a, []);
    assert a + [] == a;
  }

  lemma ThroughFirst(sees: string -> bool, a: seq<string>, line: string, b: seq<string>)
    requires Nowhere(sees, a)
    ensures a + [line] <= Through(sees, a + ([line] + b))
    ensures sees(line) ==> Through(sees, a + ([line] + b)) == a + [line]
    ensures !sees(line) ==> Nowhere(sees, a + [line])
  {
    ThroughAppend(sees, a, [line] + b);
    assert ([line] + b)[1..] == b;
  }

  lemma {:induction false} NonEmptyAppend(a: seq<string>, b: seq<string>)
    ensures NonEmpty(a + b) == NonEmpty(a) + NonEmpty(b)
  {
    if a == [] {
      assert a + b == b;
    } else {
      assert (a + b)[1..] == a[1..] + b;
      NonEmptyAppend(a[1..], b);
    }
  }

  /** One turn of the loop over the split body: what it skips or forwards, and what is left. */
  lemma OneMoreLine(before: seq<string>, line: string, after: seq<string>)
    ensures NonEmpty(before + [line]) == NonEmpty(before) + if line == "" then [] else [line]
    ensures NonEmpty(before + ([line] + after)) == NonEmpty(before) + (NonEmpty([line]) + NonEmpty(after))
    ensures NonEmpty([line]) == if line == "" then [] else [line]
  {
    NonEmptyAppend(before, [line]);
    NonEmptyAppend(before, [line] + after);
    NonEmptyAppend([line], after);
    assert [line][1..] == [];
  }

  lemma Around(parts: seq<string>, i: nat)
    requires i < |parts|
    ensures parts[..i + 1] == parts[..i] + [parts[i]]
    ensures parts == parts[..i] + ([parts[i]] + parts[i + 1..])
  {
  }

  lemma LineAt(parts: seq<string>, i: nat)
    requires i < |parts|
    ensures NonEmpty(parts[..i + 1]) == NonEmpty(parts[..i]) + if parts[i] == "" then [] else [parts[i]]
    ensures NonEmpty(parts)
         == NonEmpty(parts[..i]) + ((if parts[i] == "" then [] else [parts[i]]) + NonEmpty(parts[i + 1..]))
  {
    Around(parts, i);
    OneMoreLine(parts[..i], parts[i], parts[i + 1..]);
  }

  // ---------- one response ----------

  datatype Outcome = NextPoll | WriteFailed | ExitSent

  /** How what was sent relates to the lines that were due. */
  predicate SentFor(sees: string -> bool, outcome: Outcome, out: seq<string>, lines: seq<string>) {
    match outcome
    case NextPoll => out == lines && Nowhere(sees, lines)
    case ExitSent => out == Through(sees, lines) && out != [] && sees(out[|out| - 1])
    case WriteFailed => out < Through(sees, lines) && Nowhere(sees, out)
  }

  /**
   What was written, tries included, from the socket's write number `from` on: every due line was tried once, in order
   and up to the first the socket refused; `refused` says that there was one, which is the last tried.
   */
  predicate TriedFor(accepts: nat -> bool, from: nat, tried: seq<string>, out: seq<string>, due: seq<string>,
                     refused: bool)
  {
    && out <= tried <= due
    && |tried| == |out| + (if refused then 1 else 0)
    && forall k | from <= k < from + |tried| :: accepts(k) <==> k < from + |out|
  }

  /** So far every line of `done` went out, and nothing else. */
  ghost predicate Sending(conn: Socket, was: seq<string>, wasTried: seq<string>, done: seq<string>)
    reads conn
  {
    && conn.sent == was + done && conn.tried == wasTried + done
    && forall k | |wasTried| <= k < |conn.tried| :: conn.accepts(k)
  }

  /** What was written since `was` and `wasTried`, for these lines and with this end. */
  ghost predicate Sent(conn: Socket, was: seq<string>, wasTried: seq<string>, sees: string -> bool, outcome: Outcome,
                       lines: seq<string>)
    reads conn
  {
    && was <= conn.sent && wasTried <= conn.tried
    && SentFor(sees, outcome, conn.sent[|was|..], lines)
    && TriedFor(conn.accepts, |wasTried|, conn.tried[|wasTried|..], conn.sent[|was|..], Through(sees, lines),
                outcome.WriteFailed?)
  }

  lemma SentAll(conn: Socket, was: seq<string>, wasTried: seq<string>, sees: string -> bool, lines: seq<string>)
    requires Sending(conn, was, wasTried, lines) && Nowhere(sees, lines)
    ensures Sent(conn, was, wasTried, sees, NextPoll, lines)
  {
    ThroughNone(sees, lines);
  }

  /** Sends after `sent` go on from where `was` and the lines since then ended. */
  lemma SentOn(was: seq<string>, out: seq<string>, sent: seq<string>, now: seq<string>)
    requires sent == was + out && sent <= now
    ensures now == was + (out + now[|sent|..]) && now[|was|..] == out + now[|sent|..]
  {
  }

  /** One line more: the loop goes on, ends with the line `sees` accepts, or ends with the refused one. */
  method WriteNext(conn: Socket, sees: string -> bool, line: string, ghost was: seq<string>,
                   ghost wasTried: seq<string>, ghost done: seq<string>, ghost rest: seq<string>) returns (ok: bool)
    requires Sending(conn, was, wasTried, done) && Nowhere(sees, done)
    modifies conn
    ensures ok && !sees(line) ==> Sending(conn, was, wasTried, done + [line]) && Nowhere(sees, done + [line])
    ensures ok && sees(line) ==> Sent(conn, was, wasTried, sees, ExitSent, done + ([line] + rest))
    ensures !ok ==> Sent(conn, was, wasTried, sees, WriteFailed, done + ([line] + rest))
  {
    ThroughFirst(sees, done, line, rest);
    SentOn(was, done, conn.sent, conn.sent + [line]);
    SentOn(wasTried, done, conn.tried, conn.tried + [line]);
    ok := conn.Write(line);
  }

  /** The loop over the split body: empty parts are skipped, and the first line that `sees` accepts is the last. */
  method ForwardLines(sees: string -> bool, parts: seq<string>, conn: Socket) returns (outcome: Outcome)
    modifies conn
    ensures Sent(conn, old(conn.sent), old(conn.tried), sees, outcome, NonEmpty(parts))
  {
    var i := 0;
    ghost var was, wasTried := conn.sent, conn.tried;
    ghost var done: seq<string> := [];
    while i < |parts|
      invariant 0 <= i <= |parts|
      invariant done == NonEmpty(parts[..i]) && Nowhere(sees, done) && Sending(conn, was, wasTried, done)
    {
      var line := parts[i];
      LineAt(parts, i);
      if line != "" {
        var ok := WriteNext(conn, sees, line, was, wasTried, done, NonEmpty(parts[i + 1..]));
        if !ok {
          return WriteFailed;
        }
        done := done + [line];
        if sees(line) {
          return ExitSent;
        }
      }
      i := i + 1;
    }
    assert parts[..i] == parts;
    SentAll(conn, was, wasTried, sees, done);
    return NextPoll;
  }

  /**
   Forwards a response line by line.  The source closes `done` exactly on the `ExitSent` outcome, and gives up exactly
   when the socket refuses a due line.
   */
  method ForwardBody(body: string, conn: Socket) returns (outcome: Outcome)
    modifies conn
    ensures Sent(conn, old(conn.sent), old(conn.tried), ProxySeesExit, outcome, ProxyLines(body))
  {
    outcome := ForwardLines(ProxySeesExit, Split(body), conn);
  }

  /** In a reply of the bridge exit comes last, so stopping at exit cuts nothing off. */
  lemma ReplyIsDueWhole(data: seq<Byte>, exit: Option<Int64>)
    ensures var lines := ProxyLines(ReplyBody(data, exit));
      && ThroughExit(lines) == lines
      && (NoExit(lines) <==> exit.None?)
  {
    var fs := ReplyFrames(data, exit);
    FramingRoundTrip(fs);
    FramesWithExit(fs);
    ExitLast(ProxySeesExit, FrameLines(fs), exit.Some?);
  }

  lemma FramesWithExit(fs: seq<Frame>)
    ensures forall i | 0 <= i < |fs| :: ProxySeesExit(FrameLines(fs)[i]) <==> fs[i].ExitFrame?
  {
    forall i | 0 <= i < |fs| ensures ProxySeesExit(FrameLines(fs)[i]) <==> fs[i].ExitFrame? {
      ProxySeesFrame(fs[i]);
    }
  }

  lemma ExitLast(sees: string -> bool, lines: seq<string>, last: bool)
    requires last ==> lines != []
    requires forall i | 0 <= i < |lines| :: sees(lines[i]) <==> last && i == |lines| - 1
    ensures Through(sees, lines) == lines && (Nowhere(sees, lines) <==> !last)
  {
    if last {
      var n := |lines| - 1;
      ThroughFirst(sees, lines[..n], lines[n], []);
      assert lines == lines[..n] + ([lines[n]] + []);
      assert lines == lines[..n] + [lines[n]];
    } else {
      ThroughNone(sees, lines);
    }
  }

  // ---------- the poll loop ----------

  /** One turn of the poll loop: `done` was found closed, the request failed, or a response came. */
  datatype Poll = Stopped | Unreachable | Got(body: string)

  function PollLines(poll: Poll): seq<string> {
    if poll.Got? then ProxyLines(poll.body) else []
  }

  /** All lines the responses hold, in order. */
  function LinesOf(polls: seq<Poll>): seq<string> {
    if polls == [] then [] else LinesOf(polls[..|polls| - 1]) + PollLines(polls[|polls| - 1])
  }

  lemma LinesSnoc(polls: seq<Poll>, n: nat)
    requires n < |polls|
    ensures LinesOf(polls[..n + 1]) == LinesOf(polls[..n]) + PollLines(polls[n])
  {
    assert polls[..n + 1][..n] == polls[..n];
  }

  datatype PollEnd = StillPolling | SawDone | LostSocket | ClosedDone

  predicate PolledFor(sees: string -> bool, end: PollEnd, out: seq<string>, lines: seq<string>) {
    match end
    case StillPolling => out == lines && Nowhere(sees, lines)
    case SawDone => out == lines && Nowhere(sees, lines)
    case LostSocket => out < Through(sees, lines) && Nowhere(sees, out)
    case ClosedDone => out == Through(sees, lines) && out != [] && sees(out[|out| - 1])
  }

  lemma PolledMore(sees: string -> bool, done: seq<string>, lines: seq<string>, outcome: Outcome, out: seq<string>)
    requires Nowhere(sees, done) && SentFor(sees, outcome, out, lines)
    ensures match outcome
      case NextPoll => done + out == done + lines && Nowhere(sees, done + lines)
      case WriteFailed => PolledFor(sees, LostSocket, done + out, done + lines)
      case ExitSent => PolledFor(sees, ClosedDone, done + out, done + lines)
  {
    ThroughAppend(sees, done, lines);
  }

  lemma TriedMore(accepts: nat -> bool, from: nat, sees: string -> bool, done: seq<string>, lines: seq<string>,
                  tried: seq<string>, out: seq<string>, refused: bool)
    requires Nowhere(sees, done) && forall k | from <= k < from + |done| :: accepts(k)
    requires TriedFor(accepts, from + |done|, tried, out, Through(sees, lines), refused)
    ensures TriedFor(accepts, from, done + tried, done + out, Through(sees, done + lines), refused)
  {
    ThroughAppend(sees, done, lines);
  }

  /** One turn: `None` when the loop goes on. */
  method PollOnce(poll: Poll, conn: Socket, ghost before: seq<string>) returns (end: Option<PollEnd>)
    requires NoExit(before)
    modifies conn
    ensures old(conn.sent) <= conn.sent && old(conn.tried) <= conn.tried
    ensures PolledFor(ProxySeesExit, if end.Some? then end.value else StillPolling,
                      before + conn.sent[|old(conn.sent)|..], before + PollLines(poll))
    ensures TriedFor(conn.accepts, |old(conn.tried)|, conn.tried[|old(conn.tried)|..], conn.sent[|old(conn.sent)|..],
                     ThroughExit(PollLines(poll)), end == Some(LostSocket))
    ensures end == Some(SawDone) <==> poll.Stopped?
    ensures end != Some(StillPolling)
  {
    assert before + [] == before;
    if poll.Stopped? {
      return Some(SawDone);
    }
    end := Option.None;
    if poll.Got? {
      var outcome := ForwardBody(poll.body, conn);
      PolledMore(ProxySeesExit, before, ProxyLines(poll.body), outcome, conn.sent[|old(conn.sent)|..]);
      if outcome.WriteFailed? {
        end := Some(LostSocket);
      } else if outcome.ExitSent? {
        end := Some(ClosedDone);
      }
    }
  }

  /** What a run of turns has written so far, from `was` and `wasTried` on. */
  ghost predicate Polled(conn: Socket, was: seq<string>, wasTried: seq<string>, end: PollEnd, lines: seq<string>)
    reads conn
  {
    && was <= conn.sent && wasTried <= conn.tried
    && PolledFor(ProxySeesExit, end, conn.sent[|was|..], lines)
    && TriedFor(conn.accepts, |wasTried|, conn.tried[|wasTried|..], conn.sent[|was|..], ThroughExit(lines),
                end.LostSocket?)
  }

  lemma StartsPolling(conn: Socket)
    ensures Polled(conn, conn.sent, conn.tried, StillPolling, [])
  {
  }

  lemma PolledOn(conn: Socket, was: seq<string>, wasTried: seq<string>, lines: seq<string>)
    requires Polled(conn, was, wasTried, StillPolling, lines)
    ensures conn.sent == was + lines && conn.tried == wasTried + lines && NoExit(lines)
    ensures forall k | |wasTried| <= k < |conn.tried| :: conn.accepts(k)
  {
    ThroughNone(ProxySeesExit, lines);
  }

  /** One more turn of a run. */
  method PollMore(poll: Poll, conn: Socket, ghost lines: seq<string>, ghost was: seq<string>,
                  ghost wasTried: seq<string>)
    returns (end: Option<PollEnd>)
    requires Polled(conn, was, wasTried, StillPolling, lines)
    modifies conn
    ensures Polled(conn, was, wasTried, if end.Some? then end.value else StillPolling, lines + PollLines(poll))
    ensures end == Some(SawDone) <==> poll.Stopped?
    ensures end != Some(StillPolling)
  {
    PolledOn(conn, was, wasTried, lines);
    ghost var sent, tried := conn.sent, conn.tried;
    end := PollOnce(poll, conn, lines);
    SentOn(was, lines, sent, conn.sent);
    SentOn(wasTried, lines, tried, conn.tried);
    TriedMore(conn.accepts, |wasTried|, ProxySeesExit, lines, PollLines(poll), conn.tried[|tried|..],
              conn.sent[|sent|..], end == Some(LostSocket));
  }

  /**
   The poll goroutine over any run of turns.  Lost polls leave no trace; the lines of the responses go out in order
   and verbatim, none twice and none left out, up to the first exit or the first line the socket refuses; and the loop
   says it lost the socket exactly when the socket refused one.
   */
  method PollOutput(polls: seq<Poll>, conn: Socket) returns (end: PollEnd, used: nat)
    modifies conn
    ensures used <= |polls| && (end.StillPolling? ==> used == |polls|)
    ensures end.SawDone? <==> used > 0 && polls[used - 1].Stopped?
    ensures Polled(conn, old(conn.sent), old(conn.tried), end, LinesOf(polls[..used]))
  {
    ghost var was, wasTried := conn.sent, conn.tried;
    ghost var lines: seq<string> := [];
    used := 0;
    StartsPolling(conn);
    while used < |polls|
      invariant 0 <= used <= |polls| && lines == LinesOf(polls[..used])
      invariant used > 0 ==> !polls[used - 1].Stopped?
      invariant Polled(conn, was, wasTried, StillPolling, lines)
    {
      LinesSnoc(polls, used);
      var ended := PollMore(polls[used], conn, lines, was, wasTried);
      lines := lines + PollLines(polls[used]);
      used := used + 1;
      if ended.Some? {
        return ended.value, used;
      }
    }
    return StillPolling, used;
  }

  // ---------- the forward loop ----------

  /** What the forward loop does with one message from the relay. */
  datatype Effect = PostIt(body: string) | AnswerIt(line: string) | Nothing

  function ResizeBody(cols: int, rows: int): string {
    RenderObject(Go, [Member("cols", Number(cols)), Member("rows", Number(rows)), Member("type", Text("resize"))])
  }

  /** What the forward loop makes of the members of a message. */
  function EffectOfMembers(message: string, ms: seq<Member>): Effect {
    var kind := Lookup(ms, "type");
    if kind == Some(Text("data")) || kind == Some(Text("resize")) then PostIt(message)
    else if kind == Some(Text("ping")) then
      AnswerIt(PongLine(match Lookup(ms, "timestamp") case Some(v) => v case None => Null))
    else if kind == Some(Text("init")) then
      match (Lookup(ms, "cols"), Lookup(ms, "rows"))
      case (Some(Number(cols)), Some(Number(rows))) => PostIt(ResizeBody(cols, rows))
      case _ => Nothing
    else Nothing
  }

  function EffectOf(message: string): Effect {
    match ParseObject(message)
    case None => Nothing
    case Some(ms) => EffectOfMembers(message, ms)
  }

  /** The effect the relay's message is meant to have; a zero that was omitted reads as missing. */
  function Meant(line: string, m: Message): Effect {
    if m.kind == "data" || m.kind == "resize" then PostIt(line)
    else if m.kind == "ping" then AnswerIt(PongLine(if m.timestamp == 0 then Null else Number(m.timestamp)))
    else if m.kind == "init" && m.cols != 0 && m.rows != 0 then PostIt(ResizeBody(m.cols, m.rows))
    else Nothing
  }

  /**
   For every message the relay can write: data and resize are posted verbatim, a ping is answered with its timestamp,
   an init with both sizes becomes a resize, and anything else is passed over.  The numbers pass through a 64-bit float
   here, so pings and inits are covered where that is exact.
   */
  lemma EffectOfMessage(m: Message)
    requires m.kind == "ping" || m.kind == "init" ==> SafeMessage(m)
    ensures EffectOf(Marshal(RELAY_FIELDS, m)) == Meant(Marshal(RELAY_FIELDS, m), m)
    ensures forall text: string | ParseObject(text).None? :: EffectOf(text) == Nothing
  {
    RelayLookups(m);
    ObjectRoundTrip(Go, Members(RELAY_FIELDS, m));
    MeantByMembers(Marshal(RELAY_FIELDS, m), m, Members(RELAY_FIELDS, m));
    EffectOfParsed(Marshal(RELAY_FIELDS, m), Members(RELAY_FIELDS, m));
  }

  lemma EffectOfParsed(line: string, ms: seq<Member>)
    requires ParseObject(line) == Some(ms)
    ensures EffectOf(line) == EffectOfMembers(line, ms)
  {
  }

  lemma RelayLookups(m: Message)
    ensures var ms := Members(RELAY_FIELDS, m);
      && Lookup(ms, "type") == Some(Text(m.kind))
      && Lookup(ms, "timestamp") == (if m.timestamp == 0 then None else Some(Number(m.timestamp)))
      && Lookup(ms, "cols") == (if m.cols == 0 then None else Some(Number(m.cols)))
      && Lookup(ms, "rows") == (if m.rows == 0 then None else Some(Number(m.rows)))
  {
    FieldLists();
    LookupType(RELAY_FIELDS, m);
    LookupField(RELAY_FIELDS, m, Timestamp);
    LookupField(RELAY_FIELDS, m, Cols);
    LookupField(RELAY_FIELDS, m, Rows);
  }

  lemma MeantByMembers(line: string, m: Message, ms: seq<Member>)
    requires Lookup(ms, "type") == Some(Text(m.kind))
    requires Lookup(ms, "timestamp") == if m.timestamp == 0 then None else Some(Number(m.timestamp))
    requires Lookup(ms, "cols") == if m.cols == 0 then None else Some(Number(m.cols))
    requires Lookup(ms, "rows") == if m.rows == 0 then None else Some(Number(m.rows))
    ensures EffectOfMembers(line, ms) == Meant(line, m)
  {
  }

  function DuePosts(e: Effect): seq<string> {
    if e.PostIt? then [e.body] else []
  }

  /** The posts a run of messages asks for: keystrokes and window changes as they came, in order. */
  function Posts(messages: seq<string>): seq<string> {
    PostsBy(EffectOf, messages)
  }

  function PostsBy(effectOf: string -> Effect, messages: seq<string>): seq<string> {
    if messages == [] then []
    else PostsBy(effectOf, messages[..|messages| - 1]) + DuePosts(effectOf(messages[|messages| - 1]))
  }

  lemma PostsSnoc(effectOf: string -> Effect, messages: seq<string>, n: nat)
    requires n < |messages|
    ensures PostsBy(effectOf, messages[..n + 1]) == PostsBy(effectOf, messages[..n]) + DuePosts(effectOf(messages[n]))
  {
    assert messages[..n + 1][..n] == messages[..n];
  }

  function DuePongs(e: Effect): seq<string> {
    if e.AnswerIt? then [e.line] else []
  }

  /** The pongs a run of messages asks for, in order. */
  function Pongs(messages: seq<string>): seq<string> {
    PongsBy(EffectOf, messages)
  }

  function PongsBy(effectOf: string -> Effect, messages: seq<string>): seq<string> {
    if messages == [] then []
    else PongsBy(effectOf, messages[..|messages| - 1]) + DuePongs(effectOf(messages[|messages| - 1]))
  }

  lemma PongsSnoc(effectOf: string -> Effect, messages: seq<string>, n: nat)
    requires n < |messages|
    ensures PongsBy(effectOf, messages[..n + 1]) == PongsBy(effectOf, messages[..n]) + DuePongs(effectOf(messages[n]))
  {
    assert messages[..n + 1][..n] == messages[..n];
  }

  /** What an end that answers by `accepts` takes of what it is given from its call number `from` on. */
  function TakenOf(accepts: nat -> bool, from: nat, given: seq<string>): seq<string> {
    if given == [] then []
    else
      var n := |given| - 1;
      TakenOf(accepts, from, given[..n]) + if accepts(from + n) then [given[n]] else []
  }

  lemma TakenMore(accepts: nat -> bool, from: nat, given: seq<string>, more: seq<string>)
    requires |more| <= 1
    ensures TakenOf(accepts, from, given + more)
         == TakenOf(accepts, from, given) + if more != [] && accepts(from + |given|) then more else []
  {
    if more == [] {
      assert given + more == given;
    } else {
      assert (given + more)[..|given|] == given;
    }
  }

  /** One turn of the forward loop. A pong is tried once, and one that cannot be written is dropped. */
  method ForwardOne(effect: Effect, conn: Socket, container: Container)
    modifies conn, container
    ensures container.tried == old(container.tried) + DuePosts(effect)
    ensures container.taken
         == old(container.taken)
            + if effect.PostIt? && container.accepts(|old(container.tried)|) then [effect.body] else []
    ensures conn.tried == old(conn.tried) + DuePongs(effect)
    ensures conn.sent
         == old(conn.sent) + if effect.AnswerIt? && conn.accepts(|old(conn.tried)|) then [effect.line] else []
  {
    match effect {
      case PostIt(body) =>
        var _ := container.Post(body);
      case AnswerIt(line) =>
        var _ := conn.Write(line);
      case Nothing =>
    }
  }

  /** `a` is `b` with some elements left out. */
  predicate Thinned(a: seq<string>, b: seq<string>)
    decreases |b|
  {
    if b == [] then a == []
    else
      var b0 := b[..|b| - 1];
      Thinned(a, b0) || (a != [] && a[|a| - 1] == b[|b| - 1] && Thinned(a[..|a| - 1], b0))
  }

  lemma ThinnedSnoc(a: seq<string>, b: seq<string>, x: string)
    requires Thinned(a, b)
    ensures Thinned(a, b + [x]) && Thinned(a + [x], b + [x])
  {
    assert (b + [x])[..|b|] == b && (a + [x])[..|a|] == a;
  }

  /** What is taken comes in the order it was given in. */
  lemma {:induction false} TakenThins(accepts: nat -> bool, from: nat, given: seq<string>)
    ensures Thinned(TakenOf(accepts, from, given), given)
  {
    if given != [] {
      var n := |given| - 1;
      var taken := TakenOf(accepts, from, given[..n]);
      TakenThins(accepts, from, given[..n]);
      ThinnedSnoc(taken, given[..n], given[n]);
      assert given == given[..n] + [given[n]];
      assert taken + [] == taken;
    }
  }

  /** It is all of it exactly when nothing was refused. */
  lemma {:induction false} TakenAllIff(accepts: nat -> bool, from: nat, given: seq<string>)
    ensures |TakenOf(accepts, from, given)| <= |given|
    ensures TakenOf(accepts, from, given) == given <==> forall k | from <= k < from + |given| :: accepts(k)
  {
    if given != [] {
      var n := |given| - 1;
      var taken := TakenOf(accepts, from, given[..n]);
      TakenAllIff(accepts, from, given[..n]);
      assert given == given[..n] + [given[n]];
      if accepts(from + n) {
        assert (taken + [given[n]])[..|taken|] == taken;
      } else {
        assert |taken + []| < |given|;
      }
    }
  }

  lemma Joined(was: seq<string>, due: seq<string>, more: seq<string>)
    ensures (was + due) + more == was + (due + more)
  {
  }

  /** What one more effect adds to what an end was given, and to what it took. */
  lemma GivenMore(accepts: nat -> bool, wasTried: seq<string>, was: seq<string>, due: seq<string>, more: seq<string>)
    requires |more| <= 1
    ensures (wasTried + due) + more == wasTried + (due + more)
    ensures (was + TakenOf(accepts, |wasTried|, due))
              + (if more != [] && accepts(|wasTried + due|) then more else [])
         == was + TakenOf(accepts, |wasTried|, due + more)
  {
    TakenMore(accepts, |wasTried|, due, more);
    Joined(was, TakenOf(accepts, |wasTried|, due), if more != [] && accepts(|wasTried + due|) then more else []);
  }

  /** The forward loop, whatever the messages mean. */
  method ForwardAll(effectOf: string -> Effect, messages: seq<string>, conn: Socket, container: Container)
    modifies conn, container
    ensures container.tried == old(container.tried) + PostsBy(effectOf, messages)
    ensures container.taken
         == old(container.taken) + TakenOf(container.accepts, |old(container.tried)|, PostsBy(effectOf, messages))
    ensures conn.tried == old(conn.tried) + PongsBy(effectOf, messages)
    ensures conn.sent == old(conn.sent) + TakenOf(conn.accepts, |old(conn.tried)|, PongsBy(effectOf, messages))
  {
    var n := 0;
    ghost var due: seq<string>, pongs: seq<string> := [], [];
    while n < |messages|
      invariant 0 <= n <= |messages|
      invariant due == PostsBy(effectOf, messages[..n]) && pongs == PongsBy(effectOf, messages[..n])
      invariant container.tried == old(container.tried) + due
      invariant container.taken == old(container.taken) + TakenOf(container.accepts, |old(container.tried)|, due)
      invariant conn.tried == old(conn.tried) + pongs
      invariant conn.sent == old(conn.sent) + TakenOf(conn.accepts, |old(conn.tried)|, pongs)
    {
      var effect := effectOf(messages[n]);
      PostsSnoc(effectOf, messages, n);
      PongsSnoc(effectOf, messages, n);
      GivenMore(container.accepts, old(container.tried), old(container.taken), due, DuePosts(effect));
      GivenMore(conn.accepts, old(conn.tried), old(conn.sent), pongs, DuePongs(effect));
      ForwardOne(effect, conn, container);
      due, pongs := due + DuePosts(effect), pongs + DuePongs(effect);
      n := n + 1;
    }
    assert messages[..n] == messages;
  }

  /**
   The forward goroutine over a run of messages, one at a time and each post finished before the next begins, until
   the read fails after the last of them.  Every post and every pong is tried once and in order, and what its end
   refuses is dropped.
   */
  method ForwardInput(messages: seq<string>, conn: Socket, container: Container)
    modifies conn, container
    ensures container.tried == old(container.tried) + Posts(messages)
    ensures container.taken
         == old(container.taken) + TakenOf(container.accepts, |old(container.tried)|, Posts(messages))
    ensures conn.tried == old(conn.tried) + Pongs(messages)
    ensures conn.sent == old(conn.sent) + TakenOf(conn.accepts, |old(conn.tried)|, Pongs(messages))
  {
    ForwardAll(EffectOf, messages, conn, container);
  }

  // ---------- the `done` channel ----------

  datatype PollSide = PollSelects | PollTurn | PollEnded(closed: bool)
  datatype ReadSide = ReadSelects | ReadTurn | ReadEnded(closed: bool)

  /** Where the two goroutines stand, and how often `done` has been closed. A second close panics. */
  datatype Session = Session(poll: PollSide, read: ReadSide, closes: nat)

  datatype Step = PollSelect | PollAgain | PollLost | PollExit | ReadSelect | ReadAgain | ReadError

  function Opened(): Session {
    Session(PollSelects, ReadSelects, 0)
  }

  predicate Enabled(s: Session, a: Step) {
    s.closes < 2 &&
    match a
    case PollSelect => s.poll.PollSelects?
    case PollAgain => s.poll.PollTurn?
    case PollLost => s.poll.PollTurn?
    case PollExit => s.poll.PollTurn?
    case ReadSelect => s.read.ReadSelects?
    case ReadAgain => s.read.ReadTurn?
    case ReadError => s.read.ReadTurn?
  }

  function Apply(s: Session, a: Step): Session
    requires Enabled(s, a)
  {
    match a
    case PollSelect => s.(poll := if s.closes > 0 then PollEnded(false) else PollTurn)
    case PollAgain => s.(poll := PollSelects)
    case PollLost => s.(poll := PollEnded(false))
    case PollExit => s.(poll := PollEnded(true), closes := s.closes + 1)
    case ReadSelect => s.(read := if s.closes > 0 then ReadEnded(false) else ReadTurn)
    case ReadAgain => s.(read := ReadSelects)
    case ReadError => s.(read := ReadEnded(true), closes := s.closes + 1)
  }

  function Exec(s: Session, steps: seq<Step>): Option<Session> {
    if steps == [] then Some(s)
    else
      match Exec(s, steps[..|steps| - 1])
      case None => None
      case Some(mid) => if Enabled(mid, steps[|steps| - 1]) then Some(Apply(mid, steps[|steps| - 1])) else None
  }

  predicate Accounted(s: Session) {
    s.closes == (if s.poll == PollEnded(true) then 1 else 0) + (if s.read == ReadEnded(true) then 1 else 0)
  }

  lemma {:induction false} AccountedAlong(steps: seq<Step>, s: Session)
    requires Exec(Opened(), steps) == Some(s)
    ensures Accounted(s)
  {
    if steps != [] {
      AccountedAlong(steps[..|steps| - 1], Exec(Opened(), steps[..|steps| - 1]).value);
    }
  }

  predicate IsPolls(a: Step) {
    a.PollSelect? || a.PollAgain? || a.PollLost? || a.PollExit?
  }

  /** The steps of one of the two goroutines. */
  function Own(polls: bool, steps: seq<Step>): seq<Step> {
    if steps == [] then []
    else
      var a := steps[|steps| - 1];
      Own(polls, steps[..|steps| - 1]) + if IsPolls(a) == polls then [a] else []
  }

  /** A look at `done` before every turn, and nothing after the step that ends the goroutine. */
  predicate TurnByTurn(own: seq<Step>) {
    forall i | 0 <= i < |own| ::
      && (own[i].PollSelect? || own[i].ReadSelect? <==> i % 2 == 0)
      && (own[i].PollLost? || own[i].PollExit? || own[i].ReadError? ==> i == |own| - 1)
  }

  /** Where its own steps leave a goroutine: looking at `done`, inside a turn, or at its end. */
  predicate LeftAt(own: seq<Step>, selects: bool, turn: bool) {
    && (selects ==> |own| % 2 == 0 && (own != [] ==> own[|own| - 1].PollAgain? || own[|own| - 1].ReadAgain?))
    && (turn ==> |own| % 2 == 1)
    && (own == [] ==> selects)
  }

  lemma TurnSnoc(own: seq<Step>, a: Step, selects: bool, turn: bool)
    requires TurnByTurn(own) && LeftAt(own, selects, turn)
    requires if a.PollSelect? || a.ReadSelect? then selects else turn
    ensures TurnByTurn(own + [a])
  {
    forall i | 0 <= i < |own + [a]| ensures
      && ((own + [a])[i].PollSelect? || (own + [a])[i].ReadSelect? <==> i % 2 == 0)
      && ((own + [a])[i].PollLost? || (own + [a])[i].PollExit? || (own + [a])[i].ReadError? ==> i == |own + [a]| - 1)
    {
      if i < |own| {
        assert (own + [a])[i] == own[i];
      }
    }
  }

  /**
   Each goroutine looks at `done` before every one of its turns, and does nothing more once it has lost the socket, met
   exit or failed to read.
   */
  lemma {:induction false} EachTurnLooks(steps: seq<Step>, s: Session)
    requires Exec(Opened(), steps) == Some(s)
    ensures TurnByTurn(Own(true, steps)) && LeftAt(Own(true, steps), s.poll.PollSelects?, s.poll.PollTurn?)
    ensures TurnByTurn(Own(false, steps)) && LeftAt(Own(false, steps), s.read.ReadSelects?, s.read.ReadTurn?)
  {
    if steps != [] {
      var before, a := steps[..|steps| - 1], steps[|steps| - 1];
      var mid := Exec(Opened(), before).value;
      EachTurnLooks(before, mid);
      if IsPolls(a) {
        TurnSnoc(Own(true, before), a, mid.poll.PollSelects?, mid.poll.PollTurn?);
      } else {
        TurnSnoc(Own(false, before), a, mid.read.ReadSelects?, mid.read.ReadTurn?);
      }
      assert Own(true, before) + [] == Own(true, before) && Own(false, before) + [] == Own(false, before);
    }
  }

  /** `done` is closed twice at most, since each goroutine returns once it has closed it. */
  lemma ClosedTwiceIff(steps: seq<Step>, s: Session)
    requires Exec(Opened(), steps) == Some(s)
    ensures s.closes <= 2
    ensures s.closes == 2 <==> s.poll == PollEnded(true) && s.read == ReadEnded(true)
  {
    AccountedAlong(steps, s);
  }

  /** It does happen: both goroutines are past their `select` when the first close comes. */
  lemma DoneCanCloseTwice()
    ensures exists steps: seq<Step> ::
      Exec(Opened(), steps) == Some(Session(PollEnded(true), ReadEnded(true), 2))
  {
    var one := Then([], Opened(), PollSelect);
    var two := Then(one, Session(PollTurn, ReadSelects, 0), ReadSelect);
    var three := Then(two, Session(PollTurn, ReadTurn, 0), PollExit);
    var four := Then(three, Session(PollEnded(true), ReadTurn, 1), ReadError);
  }

  lemma Then(steps: seq<Step>, s: Session, a: Step) returns (more: seq<Step>)
    requires Exec(Opened(), steps) == Some(s) && Enabled(s, a)
    ensures Exec(Opened(), more) == Some(Apply(s, a))
  {
    more := steps + [a];
    assert more[..|steps|] == steps;
  }

  predicate CanStillClose(s: Session) {
    s.poll.PollTurn? || s.read.ReadTurn?
  }

  /** After the first close only a goroutine that is already past its `select` can close again. */
  lemma {:induction false} OnlyLateTurnsClose(s: Session, steps: seq<Step>, t: Session)
    requires s.closes > 0 && !CanStillClose(s) && Exec(s, steps) == Some(t)
    ensures t.closes == s.closes && !CanStillClose(t)
  {
    if steps != [] {
      OnlyLateTurnsClose(s, steps[..|steps| - 1], Exec(s, steps[..|steps| - 1]).value);
    }
  }

  ghost predicate Leads(s: Session, t: Session) {
    exists steps: seq<Step> :: Exec(s, steps) == Some(t)
  }

  lemma OneStep(s: Session, a: Step)
    requires Enabled(s, a)
    ensures Leads(s, Apply(s, a))
  {
    assert [a][..0] == [];
    assert Exec(s, [a]) == Some(Apply(s, a));
  }

  /** Once `done` is closed, a second close can follow exactly when the other goroutine is past its `select`. */
  lemma CanCloseAgainIff(s: Session)
    requires s.closes == 1
    ensures (exists t :: Leads(s, t) && t.closes == 2) <==> CanStillClose(s)
  {
    if s.poll.PollTurn? {
      OneStep(s, PollExit);
    } else if s.read.ReadTurn? {
      OneStep(s, ReadError);
    } else {
      forall t | Leads(s, t) ensures t.closes == 1 {
        var steps :| Exec(s, steps) == Some(t);
        OnlyLateTurnsClose(s, steps, t);
      }
    }
  }
}
