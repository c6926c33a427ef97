/**
 Keystrokes end to end: the relay's SSH input goroutine, the local proxy's synchronous forward loop and the
 bridge's `/write`, stepped together.  Only the forward loop posts input; polling and WebSocket clients that do
 not type stay free.  As on the output side the steps are written over a codec.
 */
module InputPath {
  import opened Bytes
  import opened Wrappers
  import opened Json
  import opened Messages
  import opened Framing
  import opened Base64
  import opened Bridge
  import opened BridgeInvariants

  /** What the relay can put on the wire: keystrokes, a window change, a ping. */
  datatype Item = Keys(bytes: seq<Byte>) | Resize(cols: Int64, rows: Int64) | Ping(timestamp: Int64)

  /** What the forward loop does with a line: post it (with these bytes for the PTY), or answer it itself. */
  datatype Use = Post(input: seq<Byte>) | BadPost | NoPost

  datatype Codec = Codec(write: Item -> string, use: string -> Use)

  function ItemMessage(item: Item): Message {
    match item
    case Keys(bytes) => BLANK.(kind := "data", data := Encode(bytes))
    case Resize(cols, rows) => BLANK.(kind := "resize", cols := cols, rows := rows)
    case Ping(timestamp) => BLANK.(kind := "ping", timestamp := timestamp)
  }

  /** The relay marshals; the proxy looks at the type; the bridge decodes the base64 of what was posted. */
  function RelayWrite(item: Item): string {
    Marshal(RELAY_FIELDS, ItemMessage(item))
  }

  function ProxyUse(line: string): Use {
    if LineType(line) != Some(Text("data")) && LineType(line) != Some(Text("resize")) then NoPost
    else
      match Unmarshal(BRIDGE_FIELDS, line)
      case None => BadPost
      case Some(m) =>
        if m.kind == "resize" then Post([])
        else
          match DecodeString(m.data)
          case Some(bytes) => Post(bytes)
          case None => BadPost
  }

  const PROGRAM_CODEC: Codec := Codec(RelayWrite, ProxyUse)

  function ItemUse(item: Item): Use {
    match item
    case Keys(bytes) => Post(bytes)
    case Resize(_, _) => Post([])
    case Ping(_) => NoPost
  }

  ghost predicate Faithful(codec: Codec) {
    forall item: Item :: codec.use(codec.write(item)) == ItemUse(item)
  }

  lemma ProgramCodecIsFaithful()
    ensures Faithful(PROGRAM_CODEC)
  {
    forall item: Item ensures PROGRAM_CODEC.use(PROGRAM_CODEC.write(item)) == ItemUse(item) {
      UseReadsItem(item);
    }
  }

  lemma UseReadsItem(item: Item)
    ensures ProxyUse(RelayWrite(item)) == ItemUse(item)
  {
    var m := ItemMessage(item);
    FieldLists();
    LineTypeIsKind(RELAY_FIELDS, m);
    GoRoundTrips(m);
    if item.Keys? {
      RoundTrip(item.bytes);
    }
  }

  // ---------- the system ----------

  datatype Path = Path(
    codec: Codec,
    bridge: State,
    typing: bool,
    typed: seq<Byte>,
    sent: seq<Item>,
    wire: seq<string>,
    taken: nat,
    posting: Option<Id>,
    post: map<Id, nat>,
    missed: set<int>,
    abandoned: set<Id>)

  datatype Act =
    | OnBridge(a: Action)
    | Type(bytes: seq<Byte>, ok: bool)
    | StopTyping
    | SendItem(item: Item)
    | TakeLine(req: Id, arrives: bool)
    | PostReturns
    | PostFails

  function Start(codec: Codec): Path {
    Path(codec, Started(), true, [], [], [], 0, None, map[], {}, {})
  }

  predicate Free(a: Action) {
    !(a.Arrive? && !a.kind.ReadKind?) && !a.ClientInput? && !a.RejectBody?
  }

  predicate Can(s: Path, x: Act) {
    match x
    case OnBridge(a) => Enabled(s.bridge, a) && Free(a)
    case Type(_, _) => s.typing
    case StopTyping => s.typing
    case SendItem(item) => !item.Keys?
    case TakeLine(req, _) =>
      s.posting.None? && s.wire != [] && !s.bridge.halted && req !in s.bridge.requests && req !in s.post
    case PostReturns => s.posting.Some? && s.posting.value in s.bridge.requests
                        && s.bridge.requests[s.posting.value].Answered?
    case PostFails => s.posting.Some?
  }

  function Do(s: Path, x: Act): Path
    requires Can(s, x)
  {
    match x
    case OnBridge(a) => s.(bridge := Apply(s.bridge, a))
    case Type(bytes, ok) =>
      var s1 := s.(typed := s.typed + bytes);
      if ok then Send(s1, Keys(bytes)) else s1.(typing := false)
    case StopTyping => s.(typing := false)
    case SendItem(item) => Send(s, item)
    case TakeLine(req, arrives) => Take(s, req, arrives)
    case PostReturns =>
      var r := s.posting.value;
      s.(posting := None,
         missed := if s.bridge.requests[r] == Answered(Accepted) then s.missed else s.missed + {s.taken - 1})
    case PostFails =>
      var r := s.posting.value;
      s.(posting := None, missed := s.missed + {s.taken - 1},
         abandoned := if r in s.bridge.requests && s.bridge.requests[r].Answered? then s.abandoned
                      else s.abandoned + {r})
  }

  function Send(s: Path, item: Item): Path {
    s.(sent := s.sent + [item], wire := s.wire + [s.codec.write(item)])
  }

  /** One turn of the forward loop: a failed connection never reaches the bridge and drops the line. */
  function Take(s: Path, req: Id, arrives: bool): Path
    requires Can(s, TakeLine(req, arrives))
  {
    var s1 := s.(wire := s.wire[1..], taken := s.taken + 1);
    match s.codec.use(s.wire[0])
    case NoPost => s1
    case BadPost => s1.(missed := s.missed + {s.taken})
    case Post(input) =>
      if !arrives then s1.(missed := s.missed + {s.taken})
      else s1.(bridge := Apply(s.bridge, Arrive(req, WriteKind, input)), posting := Some(req),
               post := s.post[req := s.taken])
  }

  /** The state after a run from `s`, if every step of it could be taken. */
  function Continue(s: Path, acts: seq<Act>): Option<Path> {
    if acts == [] then Some(s)
    else
      match Continue(s, acts[..|acts| - 1])
      case None => None
      case Some(mid) => if Can(mid, acts[|acts| - 1]) then Some(Do(mid, acts[|acts| - 1])) else None
  }

  function Play(codec: Codec, acts: seq<Act>): Option<Path> {
    Continue(Start(codec), acts)
  }

  lemma OneMore(s: Path, acts: seq<Act>, mid: Path, x: Act) returns (more: seq<Act>, t: Path)
    requires Continue(s, acts) == Some(mid) && Can(mid, x)
    ensures t == Do(mid, x) && Continue(s, more) == Some(t)
  {
    more, t := acts + [x], Do(mid, x);
    assert more[..|acts|] == acts;
  }

  // ---------- reading the histories ----------

  function ItemBytes(item: Item): seq<Byte> {
    if item.Keys? then item.bytes else []
  }

  function KeyBytes(items: seq<Item>): seq<Byte> {
    if items == [] then [] else KeyBytes(items[..|items| - 1]) + ItemBytes(items[|items| - 1])
  }

  function PtyBytes(inputs: seq<Input>): seq<Byte> {
    if inputs == [] then [] else PtyBytes(inputs[..|inputs| - 1]) + inputs[|inputs| - 1].bytes
  }

  lemma KeySnoc(items: seq<Item>, x: Item)
    ensures KeyBytes(items + [x]) == KeyBytes(items) + ItemBytes(x)
  {
    assert (items + [x])[..|items|] == items;
  }

  lemma PtySnoc(inputs: seq<Input>, x: Input)
    ensures PtyBytes(inputs + [x]) == PtyBytes(inputs) + x.bytes
  {
    assert (inputs + [x])[..|inputs|] == inputs;
  }

  lemma {:induction false} KeyPrefix(items: seq<Item>, n: nat)
    requires n <= |items|
    ensures KeyBytes(items[..n]) <= KeyBytes(items)
  {
    if n < |items| {
      assert items[..|items| - 1][..n] == items[..n];
      KeyPrefix(items[..|items| - 1], n);
    } else {
      assert items[..n] == items;
    }
  }

  // ---------- invariant ----------

  predicate WireInv(s: Path) {
    && s.taken + |s.wire| == |s.sent|
    && (forall k | 0 <= k < |s.wire| :: s.wire[k] == s.codec.write(s.sent[s.taken + k]))
    && KeyBytes(s.sent) <= s.typed && (s.typing ==> KeyBytes(s.sent) == s.typed)
  }

  predicate PostInv(s: Path) {
    && s.taken <= |s.sent|
    && (forall r <- s.post :: r in s.bridge.requests && s.post[r] < s.taken)
    && (forall r, q | r in s.post && q in s.post && r != q :: s.post[r] != s.post[q])
    && (forall r <- s.bridge.requests :: s.bridge.requests[r].Checked? ==>
         && r in s.post && s.bridge.requests[r].kind.WriteKind?
         && s.bridge.requests[r].input == ItemBytes(s.sent[s.post[r]])
         && (s.posting == Some(r) || r in s.abandoned))
    && (s.posting.Some? ==>
         && s.posting.value in s.post && s.taken > 0 && s.post[s.posting.value] == s.taken - 1
         && var q := s.bridge.requests[s.posting.value]; q.Checked? || q.Answered?)
    && s.abandoned <= s.post.Keys && (s.posting.Some? ==> s.posting.value !in s.abandoned)
  }

  predicate Arrived(s: Path, j: nat)
    requires j < |s.bridge.ptyIn|
  {
    var x := s.bridge.ptyIn[j];
    && x.owner in s.post && x.owner in s.bridge.requests && !s.bridge.requests[x.owner].Checked?
    && s.post[x.owner] < |s.sent| && x.bytes <= ItemBytes(s.sent[s.post[x.owner]])
  }

  predicate Before(s: Path, j: nat, k: nat)
    requires j < |s.bridge.ptyIn| && k < |s.bridge.ptyIn|
  {
    var r, q := s.bridge.ptyIn[j].owner, s.bridge.ptyIn[k].owner;
    r in s.post && q in s.post && s.post[r] < s.post[q]
  }

  /** The handlers that gave the PTY something, or resized it, did so in the order their items were sent. */
  predicate HandledInOrder(s: Path) {
    forall j, k | 0 <= j < k < |s.bridge.ptyIn| :: Before(s, j, k)
  }

  /** The PTY's input is in the order it was typed. An input without bytes, such as a window change, has no place. */
  predicate InOrder(s: Path) {
    forall j, k | 0 <= j < k < |s.bridge.ptyIn| :: BytesInOrder(s, j, k)
  }

  predicate BytesInOrder(s: Path, j: nat, k: nat)
    requires j < |s.bridge.ptyIn| && k < |s.bridge.ptyIn|
  {
    s.bridge.ptyIn[j].bytes != [] && s.bridge.ptyIn[k].bytes != [] ==> Before(s, j, k)
  }

  predicate OrderInv(s: Path) {
    && (forall j | 0 <= j < |s.bridge.ptyIn| :: Arrived(s, j))
    && (forall j, k | 0 <= j < k < |s.bridge.ptyIn| :: s.bridge.ptyIn[j].owner != s.bridge.ptyIn[k].owner)
    && (s.abandoned == {} ==> HandledInOrder(s))
  }

  /** With nothing missed, the PTY has got all keystrokes, or all but a rest of the chunk that is being posted. */
  predicate GotPrefix(s: Path) {
    s.taken <= |s.sent| &&
    var got := PtyBytes(s.bridge.ptyIn);
    match s.posting
    case None => got == KeyBytes(s.sent[..s.taken])
    case Some(r) =>
      && s.taken > 0 && r in s.bridge.requests
      && var before, after := KeyBytes(s.sent[..s.taken - 1]), KeyBytes(s.sent[..s.taken]);
         if s.bridge.requests[r].Checked? then got == before
         else if s.bridge.requests[r] == Answered(Accepted) then got == after
         else before <= got <= after
  }

  predicate PrefixInv(s: Path) {
    s.missed == {} ==> s.abandoned == {} && GotPrefix(s)
  }

  ghost predicate PathInv(s: Path) {
    && Faithful(s.codec) && s.bridge.up && s.bridge.once.Finished?
    && WireInv(s) && PostInv(s) && OrderInv(s) && PrefixInv(s)
  }

  // ---------- one step ----------

  /** How one free bridge step treats posts and the PTY's input. */
  lemma InputStep(b: State, a: Action)
    requires Enabled(b, a) && b.up && Free(a)
    ensures var t := Apply(b, a);
      && t.up
      && (a.PtyWrite? ==>
            && t.requests.Keys == b.requests.Keys
            && t.ptyIn == b.ptyIn + [Input(a.req, b.requests[a.req].input[..a.count])])
      && (!a.PtyWrite? ==> t.ptyIn == b.ptyIn)
  {
    Untouched(b, a);
    if a.PtyWrite? {
      WrittenStep(b, a.req, a.count);
    } else {
      InputAlone(b, a);
    }
  }

  lemma WrittenStep(b: State, r: Id, count: nat)
    requires Enabled(b, PtyWrite(r, count))
    ensures var t := Apply(b, PtyWrite(r, count));
      && t.requests.Keys == b.requests.Keys
      && t.ptyIn == b.ptyIn + [Input(r, b.requests[r].input[..count])]
  {
  }

  lemma RequestStep(b: State, a: Action, r: Id)
    requires Enabled(b, a) && b.up && Free(a)
    ensures var t := Apply(b, a);
      && (r in b.requests ==> r in t.requests)
      && (r in t.requests && r !in b.requests ==> t.requests[r].Draining?)
      && (r in b.requests && b.requests[r].Checked? && b.requests[r].kind.WriteKind? ==>
            t.requests[r] ==
              if a.PtyWrite? && a.req == r
              then Answered(if a.count < |b.requests[r].input| then Rejected else Accepted)
              else b.requests[r])
      && (r in b.requests && b.requests[r].Answered? ==> t.requests[r] == b.requests[r])
      && (r in b.requests && !b.requests[r].Checked? ==> !t.requests[r].Checked?)
  {
  }

  lemma PostKeptOnBridge(s: Path, a: Action)
    requires Can(s, OnBridge(a)) && PathInv(s)
    ensures PostInv(Do(s, OnBridge(a)))
  {
    var t := Do(s, OnBridge(a));
    forall r ensures r in s.bridge.requests ==> r in t.bridge.requests {
      RequestStep(s.bridge, a, r);
    }
    forall r | r in t.bridge.requests && t.bridge.requests[r].Checked?
      ensures r in s.bridge.requests && t.bridge.requests[r] == s.bridge.requests[r]
    {
      RequestStep(s.bridge, a, r);
    }
    if s.posting.Some? {
      RequestStep(s.bridge, a, s.posting.value);
    }
  }

  lemma OrderKeptOnBridge(s: Path, a: Action)
    requires Can(s, OnBridge(a)) && PathInv(s)
    ensures OrderInv(Do(s, OnBridge(a)))
  {
    var t := Do(s, OnBridge(a));
    InputStep(s.bridge, a);
    forall j | 0 <= j < |t.bridge.ptyIn| ensures Arrived(t, j) {
      RequestStep(s.bridge, a, t.bridge.ptyIn[j].owner);
      if j < |s.bridge.ptyIn| {
        assert Arrived(s, j);
      }
    }
    forall j | 0 <= j < |s.bridge.ptyIn|
      ensures a.PtyWrite? ==> s.bridge.ptyIn[j].owner != a.req && s.bridge.ptyIn[j].owner in s.post
    {
      assert Arrived(s, j);
    }
    if s.abandoned == {} {
      forall j, k | 0 <= j < k < |t.bridge.ptyIn| ensures Before(t, j, k) {
        if k < |s.bridge.ptyIn| {
          assert Before(s, j, k);
        }
      }
    }
  }

  /** The order recorded so far survives any step that adds no input and keeps every post's place. */
  lemma OrderStays(s: Path, t: Path)
    requires OrderInv(s) && t.bridge.ptyIn == s.bridge.ptyIn && s.sent <= t.sent
    requires forall r <- s.post :: r in t.post && t.post[r] == s.post[r]
    requires forall r <- s.bridge.requests :: r in t.bridge.requests && t.bridge.requests[r] == s.bridge.requests[r]
    requires t.abandoned == {} ==> s.abandoned == {}
    ensures OrderInv(t)
  {
    forall j | 0 <= j < |t.bridge.ptyIn| ensures Arrived(t, j) {
      assert Arrived(s, j);
    }
    if t.abandoned == {} {
      forall j, k | 0 <= j < k < |t.bridge.ptyIn| ensures Before(t, j, k) {
        assert Before(s, j, k);
      }
    }
  }

  lemma PrefixKeptOnBridge(s: Path, a: Action)
    requires Can(s, OnBridge(a)) && PathInv(s)
    ensures PrefixInv(Do(s, OnBridge(a)))
  {
    InputStep(s.bridge, a);
    if s.missed == {} {
      if s.posting.Some? {
        RequestStep(s.bridge, a, s.posting.value);
      }
      if a.PtyWrite? {
        PrefixKeptOnWrite(s, a.req, a.count);
      }
    }
  }

  lemma LastTaken(s: Path)
    requires 0 < s.taken <= |s.sent|
    ensures KeyBytes(s.sent[..s.taken]) == KeyBytes(s.sent[..s.taken - 1]) + ItemBytes(s.sent[s.taken - 1])
  {
    assert s.sent[..s.taken] == s.sent[..s.taken - 1] + [s.sent[s.taken - 1]];
    KeySnoc(s.sent[..s.taken - 1], s.sent[s.taken - 1]);
  }

  lemma PrefixKeptOnWrite(s: Path, r: Id, count: nat)
    requires Can(s, OnBridge(PtyWrite(r, count))) && PathInv(s) && s.missed == {}
    ensures PrefixInv(Do(s, OnBridge(PtyWrite(r, count))))
  {
    var input := s.bridge.requests[r].input;
    var a := PtyWrite(r, count);
    assert s.posting == Some(r) && input == ItemBytes(s.sent[s.taken - 1]);
    LastTaken(s);
    InputStep(s.bridge, a);
    RequestStep(s.bridge, a, r);
    PtySnoc(s.bridge.ptyIn, Input(r, input[..count]));
    PartialPrefix(KeyBytes(s.sent[..s.taken - 1]), input, count);
    WrittenPrefix(s, s.(bridge := Apply(s.bridge, a)), r, input, count);
  }

  lemma WrittenPrefix(s: Path, t: Path, r: Id, input: seq<Byte>, count: nat)
    requires s.posting == Some(r) && t == s.(bridge := t.bridge) && s.abandoned == {}
    requires 0 < s.taken <= |s.sent| && count <= |input| && r in t.bridge.requests
    requires t.bridge.requests[r] == Answered(if count < |input| then Rejected else Accepted)
    requires var before := KeyBytes(s.sent[..s.taken - 1]);
      && KeyBytes(s.sent[..s.taken]) == before + input
      && PtyBytes(t.bridge.ptyIn) == before + input[..count]
      && before <= before + input[..count] <= before + input
      && (count == |input| ==> before + input[..count] == before + input)
    ensures PrefixInv(t)
  {
  }

  lemma PartialPrefix(before: seq<Byte>, input: seq<Byte>, count: nat)
    requires count <= |input|
    ensures before <= before + input[..count] <= before + input
    ensures count == |input| ==> before + input[..count] == before + input
  {
  }

  /** Sending more leaves what is already on its way alone. */
  lemma SentMore(s: Path, t: Path)
    requires PathInv(s) && s.sent <= t.sent
    requires t == s.(sent := t.sent, wire := t.wire, typed := t.typed, typing := t.typing)
    ensures PostInv(t) && OrderInv(t) && PrefixInv(t)
  {
    OrderStays(s, t);
    assert t.sent[..t.taken] == s.sent[..s.taken];
    assert s.taken > 0 ==> t.sent[..t.taken - 1] == s.sent[..s.taken - 1];
  }

  lemma SendKeeps(s: Path, item: Item, typed: seq<Byte>)
    requires PathInv(s)
    requires KeyBytes(s.sent) + ItemBytes(item) <= typed
    requires s.typing ==> KeyBytes(s.sent) + ItemBytes(item) == typed
    ensures PathInv(Send(s.(typed := typed), item))
  {
    KeySnoc(s.sent, item);
    SentMore(s, Send(s.(typed := typed), item));
  }

  lemma TakeKeeps(s: Path, req: Id, arrives: bool)
    requires Can(s, TakeLine(req, arrives)) && PathInv(s)
    ensures PathInv(Take(s, req, arrives))
  {
    var t := Take(s, req, arrives);
    var item := s.sent[s.taken];
    assert s.wire[0] == s.codec.write(s.sent[s.taken + 0]);
    assert s.codec.use(s.wire[0]) == ItemUse(item);
    if arrives && ItemUse(item).Post? {
      ArriveStep(s.bridge, req, ItemUse(item).input);
      TakePosted(s, req, t);
    } else {
      TakeDropped(s, req, t);
    }
  }

  lemma TakeDropped(s: Path, req: Id, t: Path)
    requires PathInv(s) && s.posting.None? && s.wire != []
    requires t == s.(wire := s.wire[1..], taken := s.taken + 1, missed := t.missed)
    requires t.missed == s.missed + {s.taken} || (t.missed == s.missed && ItemBytes(s.sent[s.taken]) == [])
    ensures PathInv(t)
  {
    OrderStays(s, t);
    if t.missed == {} {
      LastTaken(t);
    }
  }

  lemma PostTaken(s: Path, req: Id, t: Path)
    requires PathInv(s) && s.posting.None? && s.wire != [] && req !in s.bridge.requests && req !in s.post
    requires ItemUse(s.sent[s.taken]).Post?
    requires t == s.(wire := s.wire[1..], taken := s.taken + 1, bridge := t.bridge, posting := Some(req),
                     post := s.post[req := s.taken])
    requires var input := ItemUse(s.sent[s.taken]).input;
      t.bridge == s.bridge.(requests :=
        s.bridge.requests[req := if s.bridge.running then Checked(WriteKind, input) else Answered(Rejected)])
    ensures WireInv(t) && PostInv(t)
  {
  }

  lemma TakePosted(s: Path, req: Id, t: Path)
    requires PathInv(s) && s.posting.None? && s.wire != [] && req !in s.bridge.requests && req !in s.post
    requires ItemUse(s.sent[s.taken]).Post?
    requires t == s.(wire := s.wire[1..], taken := s.taken + 1, bridge := t.bridge, posting := Some(req),
                     post := s.post[req := s.taken])
    requires var input := ItemUse(s.sent[s.taken]).input;
      t.bridge == s.bridge.(requests :=
        s.bridge.requests[req := if s.bridge.running then Checked(WriteKind, input) else Answered(Rejected)])
    ensures PathInv(t)
  {
    PostTaken(s, req, t);
    OrderStays(s, t);
    LastTaken(t);
  }

  lemma ArriveStep(b: State, req: Id, input: seq<Byte>)
    requires Enabled(b, Arrive(req, WriteKind, input)) && b.up
    ensures Apply(b, Arrive(req, WriteKind, input))
         == b.(requests := b.requests[req := if b.running then Checked(WriteKind, input) else Answered(Rejected)])
  {
  }

  lemma OnceStays(b: State, a: Action)
    requires Enabled(b, a) && b.once.Finished?
    ensures Apply(b, a).once.Finished?
  {
  }

  lemma FreeStepKeeps(s: Path, a: Action)
    requires Can(s, OnBridge(a)) && PathInv(s)
    ensures PathInv(Do(s, OnBridge(a)))
  {
    InputStep(s.bridge, a);
    OnceStays(s.bridge, a);
    PostKeptOnBridge(s, a);
    OrderKeptOnBridge(s, a);
    PrefixKeptOnBridge(s, a);
  }

  lemma PostReturnsKeeps(s: Path)
    requires Can(s, PostReturns) && PathInv(s)
    ensures PathInv(Do(s, PostReturns))
  {
    OrderStays(s, Do(s, PostReturns));
  }

  lemma PostFailsKeeps(s: Path)
    requires Can(s, PostFails) && PathInv(s)
    ensures PathInv(Do(s, PostFails))
  {
    OrderStays(s, Do(s, PostFails));
  }

  lemma TypeKeeps(s: Path, bytes: seq<Byte>, ok: bool)
    requires Can(s, Type(bytes, ok)) && PathInv(s)
    ensures PathInv(Do(s, Type(bytes, ok)))
  {
    if ok {
      SendKeeps(s, Keys(bytes), s.typed + bytes);
    } else {
      SentMore(s, Do(s, Type(bytes, ok)));
    }
  }

  lemma SendItemKeeps(s: Path, item: Item)
    requires Can(s, SendItem(item)) && PathInv(s)
    ensures PathInv(Do(s, SendItem(item)))
  {
    assert KeyBytes(s.sent) + [] == KeyBytes(s.sent);
    SendKeeps(s, item, s.typed);
  }

  lemma StopKeeps(s: Path)
    requires Can(s, StopTyping) && PathInv(s)
    ensures PathInv(Do(s, StopTyping))
  {
    SentMore(s, Do(s, StopTyping));
  }

  lemma SameCodec(s: Path, x: Act)
    requires Can(s, x)
    ensures Do(s, x).codec == s.codec
  {
  }

  lemma PathInvKept(s: Path, x: Act)
    requires Can(s, x) && PathInv(s)
    ensures PathInv(Do(s, x)) && Do(s, x).codec == s.codec
  {
    SameCodec(s, x);
    match x {
      case OnBridge(a) => FreeStepKeeps(s, a);
      case Type(bytes, ok) => TypeKeeps(s, bytes, ok);
      case StopTyping => StopKeeps(s);
      case SendItem(item) => SendItemKeeps(s, item);
      case TakeLine(req, arrives) => TakeKeeps(s, req, arrives);
      case PostReturns => PostReturnsKeeps(s);
      case PostFails => PostFailsKeeps(s);
    }
  }

  lemma StartInv(codec: Codec)
    requires Faithful(codec)
    ensures PathInv(Start(codec))
  {
  }

  lemma {:induction false} PathInvAlways(codec: Codec, acts: seq<Act>, s: Path)
    requires Faithful(codec) && Play(codec, acts) == Some(s)
    ensures PathInv(s) && s.codec == codec
  {
    if acts == [] {
      StartInv(codec);
    } else {
      var mid := Play(codec, acts[..|acts| - 1]).value;
      PathInvAlways(codec, acts[..|acts| - 1], mid);
      PathInvKept(mid, acts[|acts| - 1]);
    }
  }

  // ---------- the theorems ----------

  /**
   What each post gave the PTY is the front of the chunk it carried, and no post gives twice.  As long as no post
   was given up while its handler was still pending, the posts arrive in the order the relay sent them, so the PTY's
   input is the in-order concatenation of (fronts of) a subsequence of the chunks.
   */
  lemma KeystrokeOrder(acts: seq<Act>, s: Path)
    requires Play(PROGRAM_CODEC, acts) == Some(s)
    ensures forall j | 0 <= j < |s.bridge.ptyIn| :: Arrived(s, j)
    ensures forall j, k | 0 <= j < k < |s.bridge.ptyIn| :: s.bridge.ptyIn[j].owner != s.bridge.ptyIn[k].owner
    ensures s.abandoned == {} ==> HandledInOrder(s) && InOrder(s)
  {
    ProgramCodecIsFaithful();
    PathInvAlways(PROGRAM_CODEC, acts, s);
  }

  /** All that was typed in a run. */
  function TypedIn(acts: seq<Act>): seq<Byte> {
    if acts == [] then []
    else
      var x := acts[|acts| - 1];
      TypedIn(acts[..|acts| - 1]) + if x.Type? then x.bytes else []
  }

  /** All that the relay was given to send: chunks of keystrokes as they were read, and its other messages. */
  function ItemsIn(acts: seq<Act>): seq<Item> {
    if acts == [] then []
    else
      ItemsIn(acts[..|acts| - 1]) +
      match acts[|acts| - 1]
      case Type(bytes, ok) => if ok then [Keys(bytes)] else []
      case SendItem(item) => [item]
      case _ => []
  }

  /** The relay sends every chunk as it was read, and what counts as typed is what was typed. */
  lemma {:induction false} SentIsTyped(codec: Codec, acts: seq<Act>, s: Path)
    requires Play(codec, acts) == Some(s)
    ensures s.typed == TypedIn(acts) && s.sent == ItemsIn(acts)
  {
    if acts != [] {
      var before := acts[..|acts| - 1];
      var mid := Continue(Start(codec), before).value;
      SentIsTyped(codec, before, mid);
      assert mid.typed + [] == mid.typed && mid.sent + [] == mid.sent;
    }
  }

  /** The user's side of the relay has ended: its read failed, or a write of a chunk did. */
  predicate TypingEnded(acts: seq<Act>) {
    acts != [] &&
    (TypingEnded(acts[..|acts| - 1]) ||
     match acts[|acts| - 1]
     case StopTyping => true
     case Type(_, ok) => !ok
     case _ => false)
  }

  /** The relay reads keystrokes exactly until then. */
  lemma {:induction false} TypesUntilEnded(codec: Codec, acts: seq<Act>, s: Path)
    requires Play(codec, acts) == Some(s)
    ensures s.typing <==> !TypingEnded(acts)
  {
    if acts != [] {
      TypesUntilEnded(codec, acts[..|acts| - 1], Continue(Start(codec), acts[..|acts| - 1]).value);
    }
  }

  /** A post that never arrives, one that the proxy gives up, one that is answered with an error. */
  predicate Fails(s: Path, x: Act)
    requires Can(s, x)
  {
    match x
    case TakeLine(_, arrives) => !arrives && s.taken < |s.sent| && ItemUse(s.sent[s.taken]).Post?
    case PostFails => true
    case PostReturns => s.bridge.requests[s.posting.value] != Answered(Accepted)
    case _ => false
  }

  ghost predicate NoneFailed(codec: Codec, acts: seq<Act>) {
    acts != [] ==>
      && NoneFailed(codec, acts[..|acts| - 1])
      && match Play(codec, acts[..|acts| - 1])
         case None => true
         case Some(mid) => Can(mid, acts[|acts| - 1]) ==> !Fails(mid, acts[|acts| - 1])
  }

  lemma MissedStep(s: Path, x: Act)
    requires Can(s, x) && PathInv(s)
    ensures Do(s, x).missed == {} <==> s.missed == {} && !Fails(s, x)
  {
    if x.TakeLine? {
      assert s.wire[0] == s.codec.write(s.sent[s.taken + 0]);
      assert s.codec.use(s.codec.write(s.sent[s.taken])) == ItemUse(s.sent[s.taken]);
    }
  }

  /** Over every run: nothing counts as missed exactly when no post failed. */
  lemma MissedIffFailed(acts: seq<Act>, s: Path)
    requires Play(PROGRAM_CODEC, acts) == Some(s)
    ensures s.missed == {} <==> NoneFailed(PROGRAM_CODEC, acts)
  {
    ProgramCodecIsFaithful();
    MissedAlong(PROGRAM_CODEC, acts, s);
  }

  lemma {:induction false} MissedAlong(codec: Codec, acts: seq<Act>, s: Path)
    requires Faithful(codec) && Play(codec, acts) == Some(s)
    ensures s.missed == {} <==> NoneFailed(codec, acts)
  {
    if acts != [] {
      var mid := Continue(Start(codec), acts[..|acts| - 1]).value;
      MissedAlong(codec, acts[..|acts| - 1], mid);
      PathInvAlways(codec, acts[..|acts| - 1], mid);
      MissedStep(mid, acts[|acts| - 1]);
    }
  }

  /** While no post failed, the PTY's input is a prefix of what was typed. */
  lemma KeystrokePrefix(acts: seq<Act>, s: Path)
    requires Play(PROGRAM_CODEC, acts) == Some(s) && s.missed == {}
    ensures PtyBytes(s.bridge.ptyIn) <= KeyBytes(s.sent) <= s.typed
    ensures s.typed == TypedIn(acts) && s.sent == ItemsIn(acts)
  {
    ProgramCodecIsFaithful();
    PathInvAlways(PROGRAM_CODEC, acts, s);
    SentIsTyped(PROGRAM_CODEC, acts, s);
    KeyPrefix(s.sent, s.taken);
    if s.taken > 0 {
      KeyPrefix(s.sent, s.taken - 1);
    }
  }

  /**
   The order is not kept when a post is given up too early: the proxy loses its connection while the first chunk's
   handler still waits for the session lock, posts the second chunk, and the PTY gets the two the wrong way round.
   */
  lemma AbandonedPostReorders()
    ensures exists acts: seq<Act>, s: Path ::
      Play(PROGRAM_CODEC, acts) == Some(s) && s.typed == [1, 2] && PtyBytes(s.bridge.ptyIn) == [2, 1] && !InOrder(s)
  {
    ProgramCodecIsFaithful();
    var acts, s := BothPosted(PROGRAM_CODEC);
    acts, s := BothWritten(PROGRAM_CODEC, acts, s);
  }

  lemma BothTyped(codec: Codec) returns (acts: seq<Act>, s: Path)
    requires Faithful(codec)
    ensures Play(codec, acts) == Some(s) && s == Start(codec).(typed := s.typed, sent := s.sent, wire := s.wire)
    ensures s.typed == [1, 2] && |s.wire| == 2
    ensures codec.use(s.wire[0]) == Post([1]) && codec.use(s.wire[1]) == Post([2])
  {
    var s0 := Start(codec);
    acts, s := OneMore(s0, [], s0, Type([1], true));
    acts, s := OneMore(s0, acts, s, Type([2], true));
    var one, two := codec.write(Keys([1])), codec.write(Keys([2]));
    assert s.wire == [one, two] && s.typed == [1, 2];
    assert codec.use(one) == Post([1]) && codec.use(two) == Post([2]);
  }

  lemma BothPosted(codec: Codec) returns (acts: seq<Act>, s: Path)
    requires Faithful(codec)
    ensures Play(codec, acts) == Some(s) && s.typed == [1, 2] && s.post == map[0 := 0, 1 := 1]
    ensures s.bridge ==
      Started().(requests := map[0 := Checked(WriteKind, [1]), 1 := Checked(WriteKind, [2])])
  {
    acts, s := BothTyped(codec);
    var two := s.wire[1];
    ArriveStep(s.bridge, 0, [1]);
    acts, s := OneMore(Start(codec), acts, s, TakeLine(0, true));
    assert s.wire == [two];
    acts, s := OneMore(Start(codec), acts, s, PostFails);
    ArriveStep(s.bridge, 1, [2]);
    acts, s := OneMore(Start(codec), acts, s, TakeLine(1, true));
  }

  lemma WriteStep(b: State, r: Id, input: seq<Byte>)
    requires !b.halted && r in b.requests && b.requests[r] == Checked(WriteKind, input)
    ensures Enabled(b, PtyWrite(r, |input|))
    ensures Apply(b, PtyWrite(r, |input|))
         == b.(ptyIn := b.ptyIn + [Input(r, input)], requests := b.requests[r := Answered(Accepted)])
  {
    assert input[..|input|] == input;
  }

  lemma BothWritten(codec: Codec, acts0: seq<Act>, s: Path) returns (acts: seq<Act>, t: Path)
    requires Play(codec, acts0) == Some(s) && s.post == map[0 := 0, 1 := 1]
    requires !s.bridge.halted && s.bridge.ptyIn == []
    requires s.bridge.requests == map[0 := Checked(WriteKind, [1]), 1 := Checked(WriteKind, [2])]
    ensures Play(codec, acts) == Some(t) && t.typed == s.typed && PtyBytes(t.bridge.ptyIn) == [2, 1] && !InOrder(t)
  {
    WriteStep(s.bridge, 1, [2]);
    acts, t := OneMore(Start(codec), acts0, s, OnBridge(PtyWrite(1, 1)));
    WriteStep(t.bridge, 0, [1]);
    acts, t := OneMore(Start(codec), acts, t, OnBridge(PtyWrite(0, 1)));
    TwoInputs(t.bridge.ptyIn, Input(1, [2]), Input(0, [1]));
    assert !BytesInOrder(t, 0, 1);
  }

  lemma TwoInputs(inputs: seq<Input>, x: Input, y: Input)
    requires inputs == [x] + [y]
    ensures PtyBytes(inputs) == x.bytes + y.bytes
  {
    PtySnoc([], x);
    PtySnoc([x], y);
    assert [] + [x] == [x] && [] + x.bytes == x.bytes;
  }
}
