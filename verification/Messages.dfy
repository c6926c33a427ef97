/**
 The protocol message of the bridge, the relay and the worker: which fields each writer emits, how Go reads a
 message back, and what the worker's parse-and-reserialise hop does to one.
 */
module Messages {
  import opened Bytes
  import opened Wrappers
  import opened Json

  datatype Message = Message(
    kind: string, cols: Int64, rows: Int64, repo: string, data: string, code: Int64, timestamp: Int64,
    error: string, message: string)

  const BLANK: Message := Message("", 0, 0, "", "", 0, 0, "", "")

  datatype Field = TypeField | Cols | Rows | Repo | Data | Code | Timestamp | Error | Text_

  function Name(f: Field): string {
    match f
    case TypeField => "type"
    case Cols => "cols"
    case Rows => "rows"
    case Repo => "repo"
    case Data => "data"
    case Code => "code"
    case Timestamp => "timestamp"
    case Error => "error"
    case Text_ => "message"
  }

  /** The fields after `type`, in the order of the bridge's struct and of the relay's struct. */
  const BRIDGE_FIELDS: seq<Field> := [Cols, Rows, Repo, Data, Code, Text_, Timestamp]
  const RELAY_FIELDS: seq<Field> := [Cols, Rows, Repo, Data, Code, Timestamp, Error, Text_]

  function Get(m: Message, f: Field): Scalar {
    match f
    case TypeField => Text(m.kind)
    case Cols => Number(m.cols)
    case Rows => Number(m.rows)
    case Repo => Text(m.repo)
    case Data => Text(m.data)
    case Code => Number(m.code)
    case Timestamp => Number(m.timestamp)
    case Error => Text(m.error)
    case Text_ => Text(m.message)
  }

  predicate IsInt64(n: int) {
    -0x8000_0000_0000_0000 <= n < 0x8000_0000_0000_0000
  }

  /** Storing a decoded value in a field: null leaves the field alone, a value of the wrong type is an error. */
  function Set(m: Message, f: Field, v: Scalar): (r: Option<Message>) {
    match v
    case Null => Some(m)
    case Bool(_) => None
    case Number(n) =>
      if !IsInt64(n) then None
      else (match f
            case Cols => Some(m.(cols := n))
            case Rows => Some(m.(rows := n))
            case Code => Some(m.(code := n))
            case Timestamp => Some(m.(timestamp := n))
            case _ => None)
    case Text(t) =>
      match f
      case TypeField => Some(m.(kind := t))
      case Repo => Some(m.(repo := t))
      case Data => Some(m.(data := t))
      case Error => Some(m.(error := t))
      case Text_ => Some(m.(message := t))
      case _ => None
  }

  predicate IsZero(v: Scalar) {
    v == Number(0) || v == Text("")
  }

  // ---------- writing ----------

  /** `omitempty`: a zero number or an empty string is not written. */
  function Present(fs: seq<Field>, m: Message): (ms: seq<Member>) {
    if fs == [] then []
    else
      var v := Get(m, fs[0]);
      if IsZero(v) then Present(fs[1..], m) else [Member(Name(fs[0]), v)] + Present(fs[1..], m)
  }

  function Members(fs: seq<Field>, m: Message): seq<Member> {
    [Member("type", Text(m.kind))] + Present(fs, m)
  }

  function Marshal(fs: seq<Field>, m: Message): string {
    RenderObject(Go, Members(fs, m))
  }

  // ---------- reading ----------

  /** Go matches keys case-insensitively, with the two non-ASCII letters that fold onto ASCII ones. */
  function FoldChar(c: char): char {
    if 'A' <= c <= 'Z' then c - 'A' + 'a'
    else if c == 0x017F as char then 's'
    else if c == 0x212A as char then 'k'
    else c
  }

  predicate Matches(key: string, name: string) {
    |key| == |name| && forall i | 0 <= i < |key| :: FoldChar(key[i]) == name[i]
  }

  function FieldOf(fs: seq<Field>, key: string): (f: Option<Field>) {
    if fs == [] then None
    else if Matches(key, Name(fs[0])) then Some(fs[0])
    else FieldOf(fs[1..], key)
  }

  function Decode(fs: seq<Field>, ms: seq<Member>, acc: Message): (r: Option<Message>) {
    if ms == [] then Some(acc)
    else
      match FieldOf([TypeField] + fs, ms[0].key)
      case None => Decode(fs, ms[1..], acc)
      case Some(f) =>
        match Set(acc, f, ms[0].val)
        case None => None
        case Some(next) => Decode(fs, ms[1..], next)
  }

  /** `json.Unmarshal` into the struct with these fields. */
  function Unmarshal(fs: seq<Field>, text: string): (r: Option<Message>) {
    match ParseObject(text)
    case None => None
    case Some(ms) => Decode(fs, ms, BLANK)
  }

  // ---------- Go to Go ----------

  predicate Distinct(fs: seq<Field>) {
    TypeField !in fs && forall i, j | 0 <= i < j < |fs| :: fs[i] != fs[j]
  }

  lemma NameMatchesItself(f: Field)
    ensures Matches(Name(f), Name(f))
  {
  }

  lemma NamesDiffer(f: Field, g: Field)
    requires Matches(Name(f), Name(g))
    ensures f == g
  {
    var a, b := Name(f), Name(g);
    assert FoldChar(a[0]) == b[0] && FoldChar(a[1]) == b[1] && FoldChar(a[2]) == b[2] && FoldChar(a[3]) == b[3];
  }

  lemma {:induction false} FieldOfName(fs: seq<Field>, f: Field)
    requires f in fs
    ensures FieldOf(fs, Name(f)) == Some(f)
  {
    NameMatchesItself(f);
    if Matches(Name(f), Name(fs[0])) {
      NamesDiffer(f, fs[0]);
    } else {
      FieldOfName(fs[1..], f);
    }
  }

  lemma SetGet(m: Message, f: Field, x: Message)
    ensures Set(x, f, Get(m, f)).Some?
    ensures forall g: Field :: Get(Set(x, f, Get(m, f)).value, g) == if g == f then Get(m, f) else Get(x, g)
  {
  }

  /** Decoding what was written restores exactly the written fields, the omitted zeros included. */
  lemma {:induction false} DecodePresent(rs: seq<Field>, fs: seq<Field>, m: Message, acc: Message)
    requires Distinct(fs) && forall f <- fs :: (f in rs || IsZero(Get(m, f))) && IsZero(Get(acc, f))
    ensures Decode(rs, Present(fs, m), acc).Some?
    ensures forall g: Field ::
      Get(Decode(rs, Present(fs, m), acc).value, g) == if g in fs then Get(m, g) else Get(acc, g)
  {
    if fs != [] {
      var f := fs[0];
      var v := Get(m, f);
      var rest := Present(fs[1..], m);
      assert forall g :: g in fs <==> g == f || g in fs[1..];
      if IsZero(v) {
        ZeroIsZero(m, acc, f);
        DecodePresent(rs, fs[1..], m, acc);
      } else {
        DecodeHead(rs, f, v, rest, acc);
        SetGet(m, f, acc);
        DecodePresent(rs, fs[1..], m, Set(acc, f, v).value);
      }
    }
  }

  lemma DecodeHead(rs: seq<Field>, f: Field, v: Scalar, rest: seq<Member>, acc: Message)
    requires f in [TypeField] + rs
    ensures Decode(rs, [Member(Name(f), v)] + rest, acc)
         == match Set(acc, f, v) case None => None case Some(next) => Decode(rs, rest, next)
  {
    var ms := [Member(Name(f), v)] + rest;
    assert ms[1..] == rest && ms[0] == Member(Name(f), v);
    FieldOfName([TypeField] + rs, f);
  }

  /** A pong whose timestamp is any scalar at all: either the decoder gives up or it sees a pong. */
  lemma PongDecodes(timestamp: Scalar)
    ensures var r := Decode(RELAY_FIELDS, [Member("timestamp", timestamp), Member("type", Text("pong"))], BLANK);
      r.Some? ==> r.value.kind == "pong"
  {
    var last := [Member(Name(TypeField), Text("pong"))];
    assert [Member("timestamp", timestamp), Member("type", Text("pong"))]
        == [Member(Name(Timestamp), timestamp)] + last;
    assert Timestamp in RELAY_FIELDS by {
      assert RELAY_FIELDS[5] == Timestamp;
    }
    DecodeHead(RELAY_FIELDS, Timestamp, timestamp, last, BLANK);
    var next := Set(BLANK, Timestamp, timestamp);
    if next.Some? {
      assert last == [Member(Name(TypeField), Text("pong"))] + [];
      DecodeHead(RELAY_FIELDS, TypeField, Text("pong"), [], next.value);
    }
  }

  lemma ZeroIsZero(m: Message, x: Message, f: Field)
    requires IsZero(Get(m, f)) && IsZero(Get(x, f))
    ensures Get(m, f) == Get(x, f)
  {
  }

  lemma SameFields(x: Message, y: Message)
    requires forall f: Field :: Get(x, f) == Get(y, f)
    ensures x == y
  {
    assert Get(x, TypeField) == Get(y, TypeField) && Get(x, Cols) == Get(y, Cols) && Get(x, Rows) == Get(y, Rows);
    assert Get(x, Repo) == Get(y, Repo) && Get(x, Data) == Get(y, Data) && Get(x, Code) == Get(y, Code);
    assert Get(x, Timestamp) == Get(y, Timestamp) && Get(x, Error) == Get(y, Error) && Get(x, Text_) == Get(y, Text_);
  }

  lemma DecodeMembers(rs: seq<Field>, fs: seq<Field>, m: Message)
    requires Distinct(fs) && forall f <- fs :: f in rs || IsZero(Get(m, f))
    requires forall f: Field :: f != TypeField && f !in fs ==> IsZero(Get(m, f))
    ensures Decode(rs, Members(fs, m), BLANK) == Some(m)
  {
    var ms := Members(fs, m);
    var start := BLANK.(kind := m.kind);
    assert ms[1..] == Present(fs, m);
    FieldOfName([TypeField] + rs, TypeField);
    DecodePresent(rs, fs, m, start);
    var r := Decode(rs, Present(fs, m), start).value;
    forall f: Field ensures Get(r, f) == Get(m, f) {
      if f !in fs && f != TypeField {
        ZeroIsZero(m, start, f);
      }
    }
    SameFields(r, m);
  }

  /** A message is read back whole by any reader that knows the fields that were written. */
  lemma MarshalRoundTrip(rs: seq<Field>, fs: seq<Field>, m: Message)
    requires Distinct(fs) && forall f <- fs :: f in rs || IsZero(Get(m, f))
    requires forall f: Field :: f != TypeField && f !in fs ==> IsZero(Get(m, f))
    ensures Unmarshal(rs, Marshal(fs, m)) == Some(m)
  {
    ObjectRoundTrip(Go, Members(fs, m));
    DecodeMembers(rs, fs, m);
  }

  // ---------- what reading means ----------

  predicate IsText(f: Field) {
    f in {TypeField, Repo, Data, Error, Text_}
  }

  /** What a field can take: null and its own type, numbers only as far as 64 bits go. */
  predicate Fits(f: Field, v: Scalar) {
    v.Null? || (if IsText(f) then v.Text? else v.Number? && IsInt64(v.n))
  }

  predicate Acceptable(fs: seq<Field>, x: Member) {
    var f := FieldOf([TypeField] + fs, x.key);
    f.Some? ==> Fits(f.value, x.val)
  }

  predicate IsFor(fs: seq<Field>, x: Member, f: Field) {
    FieldOf([TypeField] + fs, x.key) == Some(f) && !x.val.Null?
  }

  /** The value of the last member that is for the field, if there is one. */
  function LastFor(fs: seq<Field>, ms: seq<Member>, f: Field, otherwise: Scalar): Scalar {
    if ms == [] then otherwise
    else if IsFor(fs, ms[|ms| - 1], f) then ms[|ms| - 1].val
    else LastFor(fs, ms[..|ms| - 1], f, otherwise)
  }

  lemma {:induction false} LastForHead(fs: seq<Field>, x: Member, ms: seq<Member>, f: Field, otherwise: Scalar)
    ensures LastFor(fs, [x] + ms, f, otherwise)
         == LastFor(fs, ms, f, if IsFor(fs, x, f) then x.val else otherwise)
  {
    var all := [x] + ms;
    if ms == [] {
      assert all[..0] == [];
    } else {
      assert all[..|all| - 1] == [x] + ms[..|ms| - 1];
      LastForHead(fs, x, ms[..|ms| - 1], f, otherwise);
    }
  }

  lemma SetIff(acc: Message, f: Field, v: Scalar)
    ensures Set(acc, f, v).Some? <==> Fits(f, v)
    ensures Set(acc, f, v).Some? ==>
      forall g: Field :: Get(Set(acc, f, v).value, g) == if g == f && !v.Null? then v else Get(acc, g)
  {
  }

  /**
   For every list of members, written by these programs or not: decoding fails exactly on a value its field cannot
   take, and otherwise a field is the last value that is for it, keys nobody knows and nulls being passed over.
   */
  lemma {:induction false} DecodeReadsLast(fs: seq<Field>, ms: seq<Member>, acc: Message)
    ensures Decode(fs, ms, acc).Some? <==> forall i | 0 <= i < |ms| :: Acceptable(fs, ms[i])
    ensures Decode(fs, ms, acc).Some? ==>
      forall f: Field :: Get(Decode(fs, ms, acc).value, f) == LastFor(fs, ms, f, Get(acc, f))
  {
    if ms != [] {
      var x, rest := ms[0], ms[1..];
      var known := FieldOf([TypeField] + fs, x.key);
      var next := if known.Some? then Set(acc, known.value, x.val) else Some(acc);
      assert ms == [x] + rest;
      if known.Some? {
        SetIff(acc, known.value, x.val);
      }
      if next.Some? {
        DecodeReadsLast(fs, rest, next.value);
        forall f: Field ensures
          LastFor(fs, ms, f, Get(acc, f)) == LastFor(fs, rest, f, Get(next.value, f))
        {
          LastForHead(fs, x, rest, f, Get(acc, f));
        }
      }
    }
  }

  /** The same letter in either case, or one of the two letters outside ASCII that fold onto it. */
  predicate SameLetter(c: char, small: char) {
    c == small || c as int + 32 == small as int || (small == 's' && c as int == 0x17F)
    || (small == 'k' && c as int == 0x212A)
  }

  predicate InAnyCase(key: string, name: string) {
    |key| == |name| && forall i | 0 <= i < |key| :: SameLetter(key[i], name[i])
  }

  lemma NameIsSmall(f: Field)
    ensures forall c <- Name(f) :: 'a' <= c <= 'z'
  {
  }

  lemma FoldIff(c: char, small: char)
    requires 'a' <= small <= 'z'
    ensures FoldChar(c) == small <==> SameLetter(c, small)
  {
  }

  lemma AnyCaseIff(key: string, name: string)
    requires forall c <- name :: 'a' <= c <= 'z'
    ensures Matches(key, name) <==> InAnyCase(key, name)
  {
    if |key| == |name| {
      forall i | 0 <= i < |key| ensures FoldChar(key[i]) == name[i] <==> SameLetter(key[i], name[i]) {
        assert name[i] in name;
        FoldIff(key[i], name[i]);
      }
    }
  }

  /** A key is taken for a field exactly when it is the field's name, in whatever case. */
  lemma {:induction false} FieldOfIff(fs: seq<Field>, key: string, f: Field)
    ensures FieldOf(fs, key) == Some(f) <==> f in fs && InAnyCase(key, Name(f))
  {
    NameIsSmall(f);
    AnyCaseIff(key, Name(f));
    if fs != [] {
      FieldOfIff(fs[1..], key, f);
      assert fs == [fs[0]] + fs[1..];
      if Matches(key, Name(fs[0])) && Matches(key, Name(f)) {
        assert Name(f) == Name(fs[0]);
        NameMatchesItself(f);
        NamesDiffer(f, fs[0]);
      }
    }
  }

  lemma FieldLists()
    ensures Distinct(BRIDGE_FIELDS) && Distinct(RELAY_FIELDS)
    ensures forall f <- BRIDGE_FIELDS :: f in RELAY_FIELDS
    ensures forall f: Field :: f in RELAY_FIELDS <==> f != TypeField
    ensures forall f: Field :: f in BRIDGE_FIELDS <==> f != TypeField && f != Error
  {
    var b, r := BRIDGE_FIELDS, RELAY_FIELDS;
    assert b[0] == Cols && b[1] == Rows && b[2] == Repo && b[3] == Data && b[4] == Code && b[5] == Text_
        && b[6] == Timestamp;
    assert r[0] == Cols && r[1] == Rows && r[2] == Repo && r[3] == Data && r[4] == Code && r[5] == Timestamp
        && r[6] == Error && r[7] == Text_;
  }

  /** Each side reads back what either side writes; only the relay knows the `error` field. */
  lemma GoRoundTrips(m: Message)
    ensures Unmarshal(RELAY_FIELDS, Marshal(RELAY_FIELDS, m)) == Some(m)
    ensures m.error == "" ==> Unmarshal(RELAY_FIELDS, Marshal(BRIDGE_FIELDS, m)) == Some(m)
    ensures m.error == "" ==> Unmarshal(BRIDGE_FIELDS, Marshal(BRIDGE_FIELDS, m)) == Some(m)
    ensures m.error == "" ==> Unmarshal(BRIDGE_FIELDS, Marshal(RELAY_FIELDS, m)) == Some(m)
  {
    FieldLists();
    MarshalRoundTrip(RELAY_FIELDS, RELAY_FIELDS, m);
    if m.error == "" {
      MarshalRoundTrip(RELAY_FIELDS, BRIDGE_FIELDS, m);
      MarshalRoundTrip(BRIDGE_FIELDS, BRIDGE_FIELDS, m);
      MarshalRoundTrip(BRIDGE_FIELDS, RELAY_FIELDS, m);
    }
  }

  // ---------- the worker's hop ----------

  /** Property assignment while parsing: a repeated key keeps its first place and takes the last value. */
  function Assigned(ms: seq<Member>): (os: seq<Member>) {
    if ms == [] then [] else Put(Assigned(ms[..|ms| - 1]), ms[|ms| - 1])
  }

  function Put(os: seq<Member>, m: Member): (r: seq<Member>) {
    if os == [] then [m]
    else if os[0].key == m.key then [m] + os[1..]
    else [os[0]] + Put(os[1..], m)
  }

  /** Integers a JavaScript number holds exactly. */
  predicate SafeInt(n: int) {
    -0x20_0000_0000_0000 <= n <= 0x20_0000_0000_0000
  }

  predicate SafeMembers(ms: seq<Member>) {
    forall x <- ms :: x.val.Number? ==> SafeInt(x.val.n)
  }

  predicate SafeMessage(m: Message) {
    SafeInt(m.cols) && SafeInt(m.rows) && SafeInt(m.code) && SafeInt(m.timestamp)
  }

  /** `serializeMessage(parseMessage(text))`, or nothing when the text does not parse. */
  function Hop(text: string): (r: Option<string>)
    requires ParseObject(text).Some? ==> SafeMembers(ParseObject(text).value)
  {
    match ParseObject(text)
    case None => None
    case Some(ms) => Some(RenderObject(Js, Assigned(ms)))
  }

  predicate DistinctKeys(ms: seq<Member>) {
    forall i, j | 0 <= i < j < |ms| :: ms[i].key != ms[j].key
  }

  lemma {:induction false} PutFresh(os: seq<Member>, m: Member)
    requires forall x <- os :: x.key != m.key
    ensures Put(os, m) == os + [m]
  {
    if os != [] {
      PutFresh(os[1..], m);
      assert os == [os[0]] + os[1..];
    }
  }

  lemma {:induction false} AssignedDistinct(ms: seq<Member>)
    requires DistinctKeys(ms)
    ensures Assigned(ms) == ms
  {
    if ms != [] {
      var ms0, last := ms[..|ms| - 1], ms[|ms| - 1];
      AssignedDistinct(ms0);
      PutFresh(ms0, last);
      assert ms == ms0 + [last];
    }
  }

  lemma {:induction false} PresentFrom(fs: seq<Field>, m: Message)
    ensures forall x <- Present(fs, m) :: exists f <- fs :: x.key == Name(f) && x.val == Get(m, f)
  {
    if fs != [] {
      PresentFrom(fs[1..], m);
      assert forall f <- fs[1..] :: f in fs;
      assert fs[0] in fs;
    }
  }

  lemma HeadKeyIsNew(fs: seq<Field>, m: Message)
    requires fs != [] && fs[0] !in fs[1..]
    ensures forall x <- Present(fs[1..], m) :: x.key != Name(fs[0])
  {
    PresentFrom(fs[1..], m);
    forall x <- Present(fs[1..], m) ensures x.key != Name(fs[0]) {
      var f :| f in fs[1..] && x.key == Name(f);
      NameMatchesItself(f);
      if x.key == Name(fs[0]) {
        NamesDiffer(f, fs[0]);
      }
    }
  }

  lemma {:induction false} PresentKeys(fs: seq<Field>, m: Message)
    requires Distinct(fs)
    ensures DistinctKeys(Present(fs, m))
  {
    if fs != [] {
      HeadKeyIsNew(fs, m);
      PresentKeys(fs[1..], m);
    }
  }

  lemma MembersKeys(fs: seq<Field>, m: Message)
    requires Distinct(fs)
    ensures DistinctKeys(Members(fs, m))
    ensures SafeMessage(m) ==> SafeMembers(Members(fs, m))
  {
    PresentFrom(fs, m);
    PresentKeys(fs, m);
    forall x <- Present(fs, m) ensures x.key != "type" {
      var f :| f in fs && x.key == Name(f);
      NameMatchesItself(f);
      if x.key == Name(TypeField) {
        NamesDiffer(f, TypeField);
      }
    }
  }

  /** Passing through the worker changes neither the members nor their order, only how text is escaped. */
  lemma HopRoundTrip(rs: seq<Field>, fs: seq<Field>, m: Message)
    requires Distinct(fs) && forall f <- fs :: f in rs || IsZero(Get(m, f))
    requires forall f: Field :: f != TypeField && f !in fs ==> IsZero(Get(m, f))
    requires SafeMessage(m)
    ensures ParseObject(Marshal(fs, m)).Some? && SafeMembers(ParseObject(Marshal(fs, m)).value)
    ensures Hop(Marshal(fs, m)) == Some(RenderObject(Js, Members(fs, m)))
    ensures Unmarshal(rs, RenderObject(Js, Members(fs, m))) == Some(m)
  {
    var ms := Members(fs, m);
    ObjectRoundTrip(Go, ms);
    ObjectRoundTrip(Js, ms);
    MembersKeys(fs, m);
    AssignedDistinct(ms);
    DecodeMembers(rs, fs, m);
  }
}
