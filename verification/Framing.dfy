/**
 Newline-delimited JSON from the bridge to the relay: how a response body is rendered, how the local proxy and
 the worker split it, and what the relay makes of one line.
 */
module Framing {
  import opened Bytes
  import opened Wrappers
  import opened Json
  import opened Messages
  import opened Base64
  import opened Bridge

  // ---------- splitting ----------

  /** `bytes.Split(body, "\n")` and `text.split('\n')`. */
  function Split(s: string): (parts: seq<string>)
    ensures parts != []
  {
    if s == "" then [""]
    else
      var rest := Split(s[1..]);
      if s[0] == '\n' then [""] + rest else [[s[0]] + rest[0]] + rest[1..]
  }

  function NonEmpty(lines: seq<string>): seq<string> {
    if lines == [] then [] else (if lines[0] == "" then [] else [lines[0]]) + NonEmpty(lines[1..])
  }

  /** The lines the local proxy forwards. */
  function ProxyLines(body: string): seq<string> {
    NonEmpty(Split(body))
  }

  /** What JavaScript's `trim` removes. */
  predicate JsSpace(c: char) {
    || 9 <= c as int <= 13 || c == ' ' || c as int in {0xA0, 0x1680, 0x2028, 0x2029, 0x202F, 0x205F, 0x3000, 0xFEFF}
    || 0x2000 <= c as int <= 0x200A
  }

  predicate Blank(s: string) {
    forall c <- s :: JsSpace(c)
  }

  function NonBlank(lines: seq<string>): seq<string> {
    if lines == [] then [] else (if Blank(lines[0]) then [] else [lines[0]]) + NonBlank(lines[1..])
  }

  /** The lines the worker broadcasts. */
  function WorkerLines(text: string): seq<string> {
    if Blank(text) then [] else NonBlank(Split(text))
  }

  /** A response body: every message followed by a newline. */
  function Body(lines: seq<string>): string {
    if lines == [] then "" else lines[0] + ("\n" + Body(lines[1..]))
  }

  /** White space and line ends of ECMAScript, character by character. */
  const JS_SPACES: string :=
    "\t\n\U{0B}\U{0C}\r \U{A0}\U{1680}" + WIDE_SPACES + "\U{2028}\U{2029}\U{202F}\U{205F}\U{3000}\U{FEFF}"
  const WIDE_SPACES: string :=
    "\U{2000}\U{2001}\U{2002}\U{2003}\U{2004}\U{2005}\U{2006}\U{2007}\U{2008}\U{2009}\U{200A}"

  lemma WideSpacesAre(c: char)
    ensures c in WIDE_SPACES <==> 0x2000 <= c as int <= 0x200A
  {
    if 0x2000 <= c as int <= 0x200A {
      assert WIDE_SPACES[c as int - 0x2000] == c;
    }
  }

  lemma JsSpaceIff(c: char)
    ensures JsSpace(c) <==> c in JS_SPACES
  {
    WideSpacesAre(c);
  }

  function Lines(parts: seq<string>): string
    requires parts != []
  {
    if |parts| == 1 then parts[0] else parts[0] + ("\n" + Lines(parts[1..]))
  }

  /** Whatever the text is: the parts hold no newline, and with newlines between them they are the text. */
  lemma {:induction false} SplitJoins(s: string)
    ensures forall i | 0 <= i < |Split(s)| :: '\n' !in Split(s)[i]
    ensures Lines(Split(s)) == s
  {
    if s != "" {
      var rest := Split(s[1..]);
      SplitJoins(s[1..]);
      assert s == [s[0]] + s[1..];
      if s[0] == '\n' {
        assert ([""] + rest)[1..] == rest;
      } else {
        assert ([[s[0]] + rest[0]] + rest[1..])[1..] == rest[1..];
      }
    }
  }

  lemma {:induction false} SplitLine(line: string, rest: string)
    requires '\n' !in line
    ensures Split(line + ("\n" + rest)) == [line] + Split(rest)
  {
    var s := line + ("\n" + rest);
    if line == "" {
      assert s[0] == '\n' && s[1..] == rest;
    } else {
      assert s[0] == line[0] && s[1..] == line[1..] + ("\n" + rest);
      SplitLine(line[1..], rest);
      assert [line[0]] + line[1..] == line;
    }
  }

  /** One protocol line: not blank, and without a newline inside. */
  predicate IsLine(line: string) {
    line != "" && !Blank(line) && '\n' !in line
  }

  lemma {:induction false} SplitBody(lines: seq<string>)
    requires forall l <- lines :: IsLine(l)
    ensures ProxyLines(Body(lines)) == lines && NonBlank(Split(Body(lines))) == lines
  {
    if lines == [] {
      assert [""][1..] == [];
    } else {
      assert IsLine(lines[0]);
      var rest := Split(Body(lines[1..]));
      SplitLine(lines[0], Body(lines[1..]));
      SplitBody(lines[1..]);
      assert ([lines[0]] + rest)[1..] == rest;
      assert [lines[0]] + lines[1..] == lines;
    }
  }

  /** Both splitters recover exactly the lines that were rendered. */
  lemma SplitRoundTrip(lines: seq<string>)
    requires forall l <- lines :: IsLine(l)
    ensures ProxyLines(Body(lines)) == lines
    ensures WorkerLines(Body(lines)) == lines
  {
    SplitBody(lines);
    if lines != [] {
      assert IsLine(lines[0]);
      var c :| c in lines[0] && !JsSpace(c);
      assert c in Body(lines);
    }
  }

  // ---------- frames ----------

  function FrameMessage(f: Frame): Message {
    match f
    case DataFrame(bytes) => BLANK.(kind := "data", data := Encode(bytes))
    case ExitFrame(code) => BLANK.(kind := "exit", code := code)
    case PongFrame => BLANK.(kind := "pong", message := "connected")
  }

  function FrameLine(f: Frame): string {
    Marshal(BRIDGE_FIELDS, FrameMessage(f))
  }

  function FrameLines(fs: seq<Frame>): (ls: seq<string>)
    ensures |ls| == |fs| && forall i | 0 <= i < |fs| :: ls[i] == FrameLine(fs[i])
  {
    seq(|fs|, i requires 0 <= i < |fs| => FrameLine(fs[i]))
  }

  /** The messages of a `/read` or `/writeread` answer: the drained bytes, if any, then exit, if the flag was down. */
  function ReplyFrames(data: seq<Byte>, exit: Option<Int64>): seq<Frame> {
    (if data == [] then [] else [DataFrame(data)]) + (if exit.None? then [] else [ExitFrame(exit.value)])
  }

  function ReplyBody(data: seq<Byte>, exit: Option<Int64>): string {
    Body(FrameLines(ReplyFrames(data, exit)))
  }

  /** What the relay's output goroutine does with one message. */
  datatype Event = Output(bytes: seq<Byte>) | ExitSeen(code: Int64) | Notice(text: string) | Ignored

  function EventOf(m: Message): Event {
    if m.kind == "data" then
      match DecodeString(m.data) {
        case Some(bytes) => Output(bytes)
        case None => Ignored
      }
    else if m.kind == "exit" then ExitSeen(m.code)
    else if m.kind == "error" then Notice("Error: " + m.error + "\r\n")
    else if m.kind == "status" then Notice("\r" + m.message + "\r\n")
    else Ignored
  }

  function RelayRead(line: string): Event {
    match Unmarshal(RELAY_FIELDS, line)
    case None => Ignored
    case Some(m) => EventOf(m)
  }

  /** The local proxy's answer to a ping; Go writes a map's keys in order. */
  function PongLine(timestamp: Scalar): string {
    RenderObject(Go, [Member("timestamp", timestamp), Member("type", Text("pong"))])
  }

  lemma PongIgnored(timestamp: Scalar)
    ensures RelayRead(PongLine(timestamp)) == Ignored
  {
    ObjectRoundTrip(Go, [Member("timestamp", timestamp), Member("type", Text("pong"))]);
    PongDecodes(timestamp);
    var r := Unmarshal(RELAY_FIELDS, PongLine(timestamp));
    if r.Some? {
      PongHasNoEffect(r.value);
    }
  }

  lemma PongHasNoEffect(m: Message)
    requires m.kind == "pong"
    ensures EventOf(m) == Ignored
  {
    assert m.kind[0] == 'p';
  }

  function FrameEvent(f: Frame): Event {
    match f
    case DataFrame(bytes) => Output(bytes)
    case ExitFrame(code) => ExitSeen(code)
    case PongFrame => Ignored
  }

  lemma FrameEventIsRight(f: Frame)
    ensures EventOf(FrameMessage(f)) == FrameEvent(f)
  {
    if f.DataFrame? {
      RoundTrip(f.bytes);
    }
  }

  lemma FrameLineIsLine(f: Frame)
    ensures IsLine(FrameLine(f))
  {
    MembersOneLine(Go, Members(BRIDGE_FIELDS, FrameMessage(f)));
    assert FrameLine(f)[0] == '{' && !JsSpace('{');
  }

  lemma RelayReadsFrame(f: Frame)
    ensures RelayRead(FrameLine(f)) == FrameEvent(f)
  {
    GoRoundTrips(FrameMessage(f));
    FrameEventIsRight(f);
  }

  /** What the relay shows of errors and status lines, whatever their text. */
  lemma NoticesRead(text: string)
    ensures RelayRead(Marshal(RELAY_FIELDS, BLANK.(kind := "error", error := text)))
         == Notice("Error: " + text + "\r\n")
    ensures RelayRead(Marshal(RELAY_FIELDS, BLANK.(kind := "status", message := text)))
         == Notice("\r" + text + "\r\n")
  {
    GoRoundTrips(BLANK.(kind := "error", error := text));
    GoRoundTrips(BLANK.(kind := "status", message := text));
  }

  /** The relay passes over what is no message, data that is no base64, and messages of any other type. */
  lemma RelayIgnores(line: string, m: Message)
    ensures Unmarshal(RELAY_FIELDS, line).None? ==> RelayRead(line) == Ignored
    ensures m.kind == "data" && DecodeString(m.data).None? ==> RelayRead(Marshal(RELAY_FIELDS, m)) == Ignored
    ensures m.kind !in {"data", "exit", "error", "status"} ==> RelayRead(Marshal(RELAY_FIELDS, m)) == Ignored
  {
    GoRoundTrips(m);
  }

  /** The whole trip through the local proxy: every frame arrives as itself, in order, code 0 and all. */
  lemma FramingRoundTrip(fs: seq<Frame>)
    ensures ProxyLines(Body(FrameLines(fs))) == FrameLines(fs) == WorkerLines(Body(FrameLines(fs)))
    ensures forall i | 0 <= i < |fs| :: RelayRead(ProxyLines(Body(FrameLines(fs)))[i]) == FrameEvent(fs[i])
  {
    forall i | 0 <= i < |fs| ensures IsLine(FrameLines(fs)[i]) && RelayRead(FrameLines(fs)[i]) == FrameEvent(fs[i]) {
      FrameLineIsLine(fs[i]);
      RelayReadsFrame(fs[i]);
    }
    SplitRoundTrip(FrameLines(fs));
  }

  /** The trip through the worker, which parses each line and writes it again. */
  lemma HopFramingRoundTrip(fs: seq<Frame>, i: nat)
    requires i < |fs| && (fs[i].ExitFrame? ==> SafeInt(fs[i].code))
    ensures |WorkerLines(Body(FrameLines(fs)))| == |fs|
    ensures var line := WorkerLines(Body(FrameLines(fs)))[i];
      && ParseObject(line).Some? && SafeMembers(ParseObject(line).value)
      && Hop(line).Some? && RelayRead(Hop(line).value) == FrameEvent(fs[i])
  {
    FramingRoundTrip(fs);
    FieldLists();
    HopRoundTrip(RELAY_FIELDS, BRIDGE_FIELDS, FrameMessage(fs[i]));
    FrameEventIsRight(fs[i]);
  }

  // ---------- the local proxy's own look at a line ----------

  /** The value a Go map holds for a key after decoding: the last one wins. */
  function Lookup(ms: seq<Member>, key: string): (v: Option<Scalar>) {
    if ms == [] then None
    else if ms[|ms| - 1].key == key then Some(ms[|ms| - 1].val)
    else Lookup(ms[..|ms| - 1], key)
  }

  /** The keys, each where it first stands. */
  function FirstKeys(ms: seq<Member>): seq<string> {
    if ms == [] then []
    else
      var keys, key := FirstKeys(ms[..|ms| - 1]), ms[|ms| - 1].key;
      if key in keys then keys else keys + [key]
  }

  function KeysOf(ms: seq<Member>): seq<string> {
    seq(|ms|, i requires 0 <= i < |ms| => ms[i].key)
  }

  lemma {:induction false} LookupHead(x: Member, ms: seq<Member>, key: string)
    ensures Lookup([x] + ms, key)
         == if Lookup(ms, key).Some? then Lookup(ms, key) else if x.key == key then Some(x.val) else None
  {
    var all := [x] + ms;
    if ms == [] {
      assert all[..0] == [];
    } else {
      assert all[..|all| - 1] == [x] + ms[..|ms| - 1];
      LookupHead(x, ms[..|ms| - 1], key);
    }
  }

  lemma KeysCons(x: Member, rest: seq<Member>)
    ensures KeysOf([x] + rest) == [x.key] + KeysOf(rest)
  {
  }

  lemma {:induction false} PutKeys(os: seq<Member>, m: Member)
    ensures KeysOf(Put(os, m)) == if m.key in KeysOf(os) then KeysOf(os) else KeysOf(os) + [m.key]
  {
    if os == [] {
      KeysCons(m, []);
    } else {
      var x, rest := os[0], os[1..];
      assert os == [x] + rest;
      KeysCons(x, rest);
      KeysCons(m, rest);
      PutKeys(rest, m);
      KeysCons(x, Put(rest, m));
    }
  }

  predicate Different(keys: seq<string>) {
    forall i, j | 0 <= i < j < |keys| :: keys[i] != keys[j]
  }

  lemma DifferentIff(ms: seq<Member>)
    ensures DistinctKeys(ms) <==> Different(KeysOf(ms))
  {
    if Different(KeysOf(ms)) {
      forall i, j | 0 <= i < j < |ms| ensures ms[i].key != ms[j].key {
        assert KeysOf(ms)[i] != KeysOf(ms)[j];
      }
    }
  }

  lemma {:induction false} PutValue(os: seq<Member>, m: Member, key: string)
    requires DistinctKeys(os)
    ensures Lookup(Put(os, m), key) == if key == m.key then Some(m.val) else Lookup(os, key)
  {
    if os == [] {
      assert [m][..0] == [];
    } else {
      var x, rest := os[0], os[1..];
      assert os == [x] + rest;
      LookupHead(x, rest, key);
      if x.key == m.key {
        LookupHead(m, rest, key);
        NotThere(rest, m.key);
      } else {
        PutValue(rest, m, key);
        LookupHead(x, Put(rest, m), key);
      }
    }
  }

  lemma NotThere(ms: seq<Member>, key: string)
    requires forall i | 0 <= i < |ms| :: ms[i].key != key
    ensures Lookup(ms, key) == None
  {
    LookupMissing(ms, key);
  }

  /**
   What the worker's parser makes of repeated keys: one member for each key, where the key first stands, with the value
   that comes last, which is the one that the local proxy's map holds as well.
   */
  lemma {:induction false} AssignedKeeps(ms: seq<Member>, key: string)
    ensures DistinctKeys(Assigned(ms)) && KeysOf(Assigned(ms)) == FirstKeys(ms)
    ensures Lookup(Assigned(ms), key) == Lookup(ms, key)
  {
    if ms != [] {
      AssignedKeeps(ms[..|ms| - 1], key);
      var os, m := Assigned(ms[..|ms| - 1]), ms[|ms| - 1];
      PutKeys(os, m);
      PutValue(os, m, key);
      DifferentIff(os);
      DifferentIff(Put(os, m));
    }
  }

  function LineType(line: string): (t: Option<Scalar>) {
    match ParseObject(line)
    case None => None
    case Some(ms) => Lookup(ms, "type")
  }

  predicate ProxySeesExit(line: string) {
    LineType(line) == Some(Text("exit"))
  }

  lemma {:induction false} LookupAt(ms: seq<Member>, i: nat)
    requires i < |ms| && DistinctKeys(ms)
    ensures Lookup(ms, ms[i].key) == Some(ms[i].val)
  {
    if i < |ms| - 1 {
      assert ms[..|ms| - 1][i] == ms[i];
      LookupAt(ms[..|ms| - 1], i);
    }
  }

  lemma {:induction false} LookupMissing(ms: seq<Member>, key: string)
    requires forall i | 0 <= i < |ms| :: ms[i].key != key
    ensures Lookup(ms, key) == None
  {
    if ms != [] {
      LookupMissing(ms[..|ms| - 1], key);
    }
  }

  /** A map decoded from a written message holds a field's value, unless the field was omitted as zero. */
  lemma LookupField(fs: seq<Field>, m: Message, f: Field)
    requires Distinct(fs) && f in fs && f != TypeField
    ensures Lookup(Members(fs, m), Name(f)) == if IsZero(Get(m, f)) then None else Some(Get(m, f))
  {
    var ms := Members(fs, m);
    MembersKeys(fs, m);
    if IsZero(Get(m, f)) {
      forall i | 0 <= i < |ms| ensures ms[i].key != Name(f) {
        OmittedField(fs, m, f, i);
      }
      LookupMissing(ms, Name(f));
    } else {
      var i := PresentField(fs, m, f);
      assert ms[i + 1] == Present(fs, m)[i];
      LookupAt(ms, i + 1);
    }
  }

  lemma OmittedField(fs: seq<Field>, m: Message, f: Field, i: nat)
    requires Distinct(fs) && f in fs && f != TypeField && IsZero(Get(m, f)) && i < |Members(fs, m)|
    ensures Members(fs, m)[i].key != Name(f)
  {
    if i == 0 {
      NameMatchesItself(f);
      if Name(f) == Name(TypeField) {
        NamesDiffer(f, TypeField);
      }
    } else {
      ZeroNotPresent(fs, m, f, i - 1);
    }
  }

  lemma {:induction false} ZeroNotPresent(fs: seq<Field>, m: Message, f: Field, i: nat)
    requires IsZero(Get(m, f)) && i < |Present(fs, m)|
    ensures Present(fs, m)[i].key != Name(f)
  {
    if IsZero(Get(m, fs[0])) {
      ZeroNotPresent(fs[1..], m, f, i);
    } else if i == 0 {
      NameMatchesItself(f);
      if Name(f) == Name(fs[0]) {
        NamesDiffer(f, fs[0]);
      }
    } else {
      ZeroNotPresent(fs[1..], m, f, i - 1);
    }
  }

  lemma {:induction false} PresentField(fs: seq<Field>, m: Message, f: Field) returns (i: nat)
    requires f in fs && !IsZero(Get(m, f))
    ensures i < |Present(fs, m)| && Present(fs, m)[i] == Member(Name(f), Get(m, f))
  {
    if fs[0] == f {
      i := 0;
    } else {
      i := PresentField(fs[1..], m, f);
      i := if IsZero(Get(m, fs[0])) then i else i + 1;
    }
  }

  lemma LookupType(fs: seq<Field>, m: Message)
    requires Distinct(fs)
    ensures Lookup(Members(fs, m), "type") == Some(Text(m.kind))
  {
    MembersKeys(fs, m);
    LookupAt(Members(fs, m), 0);
  }

  /** The proxy's map and the relay's struct see the same type in every message the bridge or the relay writes. */
  lemma LineTypeIsKind(fs: seq<Field>, m: Message)
    requires Distinct(fs)
    ensures LineType(Marshal(fs, m)) == Some(Text(m.kind))
  {
    ObjectRoundTrip(Go, Members(fs, m));
    LookupType(fs, m);
  }

  lemma ProxySeesFrame(f: Frame)
    ensures ProxySeesExit(FrameLine(f)) <==> f.ExitFrame?
  {
    FieldLists();
    LineTypeIsKind(BRIDGE_FIELDS, FrameMessage(f));
  }
}
