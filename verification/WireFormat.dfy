/**
 The protocol as JSON objects: which keys and values the lines that the programs write hold.  The round trips
 elsewhere hold for any names both sides agree on; these are the names they do agree on.
 */
module WireFormats {
  import opened Bytes
  import opened Wrappers
  import opened Json
  import opened Messages
  import opened Base64
  import opened Bridge
  import opened Framing
  import opened InputPath
  import opened LocalProxies

  function Written(key: string, v: Scalar): seq<Member> {
    if IsZero(v) then [] else [Member(key, v)]
  }

  /** When all other fields are zero, only this one is written. */
  lemma {:induction false} OnlyWritten(fs: seq<Field>, m: Message, f: Field)
    requires Distinct(fs) && forall g <- fs :: g == f || IsZero(Get(m, g))
    ensures Present(fs, m) == if f in fs then Written(Name(f), Get(m, f)) else []
  {
    if fs != [] {
      var rest := fs[1..];
      assert fs == [fs[0]] + rest;
      OnlyWritten(rest, m, f);
      if fs[0] == f {
        assert f !in rest;
        assert Written(Name(f), Get(m, f)) + [] == Written(Name(f), Get(m, f));
      }
    }
  }

  /** Under these keys, the values of these fields that are not zero. */
  function WrittenAll(keys: seq<string>, fs: seq<Field>, m: Message): seq<Member>
    requires |keys| == |fs|
  {
    if fs == [] then [] else Written(keys[0], Get(m, fs[0])) + WrittenAll(keys[1..], fs[1..], m)
  }

  lemma {:induction false} PresentIs(keys: seq<string>, fs: seq<Field>, m: Message)
    requires |keys| == |fs| && forall i | 0 <= i < |fs| :: keys[i] == Name(fs[i])
    ensures Present(fs, m) == WrittenAll(keys, fs, m)
  {
    if fs != [] {
      PresentIs(keys[1..], fs[1..], m);
    }
  }

  const BRIDGE_KEYS: seq<string> := ["cols", "rows", "repo", "data", "code", "message", "timestamp"]
  const RELAY_KEYS: seq<string> := ["cols", "rows", "repo", "data", "code", "timestamp", "error", "message"]

  /** Every message of the bridge and of the relay: its type, then its nonzero fields, each under its own key. */
  lemma MessageObject(m: Message)
    ensures |BRIDGE_KEYS| == |BRIDGE_FIELDS| && |RELAY_KEYS| == |RELAY_FIELDS|
    ensures ParseObject(Marshal(BRIDGE_FIELDS, m))
         == Some([Member("type", Text(m.kind))] + WrittenAll(BRIDGE_KEYS, BRIDGE_FIELDS, m))
    ensures ParseObject(Marshal(RELAY_FIELDS, m))
         == Some([Member("type", Text(m.kind))] + WrittenAll(RELAY_KEYS, RELAY_FIELDS, m))
  {
    PresentIs(BRIDGE_KEYS, BRIDGE_FIELDS, m);
    PresentIs(RELAY_KEYS, RELAY_FIELDS, m);
    ObjectRoundTrip(Go, Members(BRIDGE_FIELDS, m));
    ObjectRoundTrip(Go, Members(RELAY_FIELDS, m));
  }

  lemma OneField(fs: seq<Field>, m: Message, f: Field, key: string, v: Scalar)
    requires Distinct(fs) && f in fs && forall g <- fs :: g == f || IsZero(Get(m, g))
    requires key == Name(f) && v == Get(m, f)
    ensures ParseObject(Marshal(fs, m)) == Some([Member("type", Text(m.kind))] + Written(key, v))
  {
    OnlyWritten(fs, m, f);
    ObjectRoundTrip(Go, Members(fs, m));
  }

  /** The bridge's lines: empty data and a zero exit code are left out. */
  lemma FrameObject(f: Frame)
    ensures ParseObject(FrameLine(f)) == Some(match f
      case DataFrame(bytes) => [Member("type", Text("data"))] + Written("data", Text(Encode(bytes)))
      case ExitFrame(code) => [Member("type", Text("exit"))] + Written("code", Number(code))
      case PongFrame => [Member("type", Text("pong"))] + Written("message", Text("connected")))
  {
    FieldLists();
    match f {
      case DataFrame(bytes) => OneField(BRIDGE_FIELDS, FrameMessage(f), Data, "data", Text(Encode(bytes)));
      case ExitFrame(code) => OneField(BRIDGE_FIELDS, FrameMessage(f), Code, "code", Number(code));
      case PongFrame => OneField(BRIDGE_FIELDS, FrameMessage(f), Text_, "message", Text("connected"));
    }
  }

  lemma TwoFields(fs: seq<Field>, rest: seq<Field>, m: Message, f: Field, g: Field)
    requires Distinct(fs) && fs == [f] + rest && g in rest && forall h <- rest :: h == g || IsZero(Get(m, h))
    ensures Present(fs, m) == Written(Name(f), Get(m, f)) + Written(Name(g), Get(m, g))
  {
    assert fs[1..] == rest;
    OnlyWritten(rest, m, g);
  }

  lemma SizesWritten(m: Message)
    requires forall f: Field :: f in {TypeField, Cols, Rows} || IsZero(Get(m, f))
    ensures Present(RELAY_FIELDS, m) == Written("cols", Number(m.cols)) + Written("rows", Number(m.rows))
  {
    var rest := RELAY_FIELDS[1..];
    FieldLists();
    assert RELAY_FIELDS == [Cols] + rest && rest[0] == Rows;
    TwoFields(RELAY_FIELDS, rest, m, Cols, Rows);
  }

  /** The relay's lines: columns are `cols` and rows are `rows`, and keystrokes are the data's base64. */
  lemma ItemObject(item: Item)
    ensures ParseObject(RelayWrite(item)) == Some(match item
      case Keys(bytes) => [Member("type", Text("data"))] + Written("data", Text(Encode(bytes)))
      case Resize(cols, rows) =>
        [Member("type", Text("resize"))] + (Written("cols", Number(cols)) + Written("rows", Number(rows)))
      case Ping(timestamp) => [Member("type", Text("ping"))] + Written("timestamp", Number(timestamp)))
  {
    var m := ItemMessage(item);
    FieldLists();
    match item {
      case Keys(bytes) => OneField(RELAY_FIELDS, m, Data, "data", Text(Encode(bytes)));
      case Resize(cols, rows) =>
        SizesWritten(m);
        ObjectRoundTrip(Go, Members(RELAY_FIELDS, m));
      case Ping(timestamp) => OneField(RELAY_FIELDS, m, Timestamp, "timestamp", Number(timestamp));
    }
  }

  /** The bridge reads what the relay meant, and a window change goes to the PTY with these very sizes. */
  lemma BridgeReadsItem(item: Item)
    ensures Unmarshal(BRIDGE_FIELDS, RelayWrite(item)) == Some(match item
      case Keys(bytes) => BLANK.(kind := "data", data := Encode(bytes))
      case Resize(cols, rows) => BLANK.(kind := "resize", cols := cols, rows := rows)
      case Ping(timestamp) => BLANK.(kind := "ping", timestamp := timestamp))
  {
    GoRoundTrips(ItemMessage(item));
  }

  lemma DecodeTwo(rs: seq<Field>, f: Field, v: Scalar, g: Field, w: Scalar, acc: Message)
    requires f in [TypeField] + rs && g in [TypeField] + rs
    ensures Decode(rs, [Member(Name(f), v), Member(Name(g), w)], acc)
         == match Set(acc, f, v) case None => None case Some(next) => Set(next, g, w)
  {
    var last := [Member(Name(g), w)];
    assert [Member(Name(f), v), Member(Name(g), w)] == [Member(Name(f), v)] + last;
    DecodeHead(rs, f, v, last, acc);
    var next := Set(acc, f, v);
    if next.Some? {
      assert last == [Member(Name(g), w)] + [];
      DecodeHead(rs, g, w, [], next.value);
    }
  }

  /** The pong carries back the very timestamp the ping had; a ping without one gets a null. */
  lemma PongReadsBack(timestamp: Scalar)
    requires timestamp.Null? || (timestamp.Number? && IsInt64(timestamp.n))
    ensures Unmarshal(RELAY_FIELDS, PongLine(timestamp))
         == Some(BLANK.(kind := "pong", timestamp := if timestamp.Null? then 0 else timestamp.n))
  {
    var ms := [Member("timestamp", timestamp), Member("type", Text("pong"))];
    FieldLists();
    ObjectRoundTrip(Go, ms);
    assert ms == [Member(Name(Timestamp), timestamp), Member(Name(TypeField), Text("pong"))];
    DecodeTwo(RELAY_FIELDS, Timestamp, timestamp, TypeField, Text("pong"), BLANK);
  }

  /** The window change an `init` is turned into: the bridge reads these columns and these rows. */
  lemma ResizeReadsBack(cols: Int64, rows: Int64)
    ensures Unmarshal(BRIDGE_FIELDS, ResizeBody(cols, rows))
         == Some(BLANK.(kind := "resize", cols := cols, rows := rows))
  {
    var c, r := Member(Name(Cols), Number(cols)), Member(Name(Rows), Number(rows));
    var kind := Member("type", Text("resize"));
    FieldLists();
    ObjectRoundTrip(Go, [c, r, kind]);
    assert [c, r, kind] == [c] + [r, kind];
    DecodeHead(BRIDGE_FIELDS, Cols, Number(cols), [r, kind], BLANK);
    assert [r, kind] == [Member(Name(Rows), Number(rows)), Member(Name(TypeField), Text("resize"))];
    DecodeTwo(BRIDGE_FIELDS, Rows, Number(rows), TypeField, Text("resize"), BLANK.(cols := cols));
  }
}
