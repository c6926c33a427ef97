/**
 Flat JSON objects: what Go's `encoding/json` and JavaScript's `JSON.stringify` write, and a reader for both
 (RFC 8259).  Values are strings, integers, booleans and null; text is a sequence of Unicode characters.
 */
module Json {
  import opened Wrappers

  datatype Writer = Go | Js

  datatype Scalar = Text(text: string) | Number(n: int) | Bool(b: bool) | Null

  datatype Member = Member(key: string, val: Scalar)

  // ---------- strings ----------

  function HexDigit(d: int): (c: char)
    requires 0 <= d < 16
  {
    if d < 10 then '0' + d as char else 'a' + (d - 10) as char
  }

  function HexValue(c: char): (d: Option<int>)
    ensures d.Some? ==> 0 <= d.value < 16
  {
    if '0' <= c <= '9' then Some(c as int - '0' as int)
    else if 'a' <= c <= 'f' then Some(c as int - 'a' as int + 10)
    else if 'A' <= c <= 'F' then Some(c as int - 'A' as int + 10)
    else None
  }

  function Unicode(n: int): string
    requires 0 <= n < 0x1_0000
  {
    ['\\', 'u', HexDigit(n / 4096), HexDigit(n / 256 % 16), HexDigit(n / 16 % 16), HexDigit(n % 16)]
  }

  /** Go also escapes the characters HTML cares about and the two Unicode line separators. */
  function Escape(w: Writer, c: char): (s: string)
  {
    if c == '"' then "\\\""
    else if c == '\\' then "\\\\"
    else if c == 8 as char then "\\b"
    else if c == 12 as char then "\\f"
    else if c == '\n' then "\\n"
    else if c == '\r' then "\\r"
    else if c == '\t' then "\\t"
    else if c < ' ' then Unicode(c as int)
    else if w.Go? && (c == '<' || c == '>' || c == '&' || c == 0x2028 as char || c == 0x2029 as char)
    then Unicode(c as int)
    else [c]
  }

  function EscapeAll(w: Writer, s: string): string {
    if s == "" then "" else Escape(w, s[0]) + EscapeAll(w, s[1..])
  }

  function Hex4(s: string): (n: Option<int>)
    ensures n.Some? ==> |s| >= 4 && 0 <= n.value < 0x1_0000
  {
    if |s| < 4 then None
    else
      match (HexValue(s[0]), HexValue(s[1]), HexValue(s[2]), HexValue(s[3]))
      case (Some(a), Some(b), Some(c), Some(d)) => Some(a * 4096 + b * 256 + c * 16 + d)
      case _ => None
  }

  /** One character of a string body and what follows it. Half a surrogate pair reads as U+FFFD. */
  function NextChar(s: string): (r: Option<(char, string)>)
    ensures r.Some? ==> |r.value.1| < |s|
  {
    if s == "" || s[0] == '"' || s[0] < ' ' then None
    else if s[0] != '\\' then Some((s[0], s[1..]))
    else if |s| < 2 then None
    else
      match s[1]
      case '"' => Some(('"', s[2..]))
      case '\\' => Some(('\\', s[2..]))
      case '/' => Some(('/', s[2..]))
      case 'b' => Some((8 as char, s[2..]))
      case 'f' => Some((12 as char, s[2..]))
      case 'n' => Some(('\n', s[2..]))
      case 'r' => Some(('\r', s[2..]))
      case 't' => Some(('\t', s[2..]))
      case 'u' => (match Hex4(s[2..])
                   case None => None
                   case Some(n) => Some(FromUnit(n, s[6..])))
      case _ => None
  }

  function FromUnit(n: int, rest: string): (r: (char, string))
    requires 0 <= n < 0x1_0000
    ensures |r.1| <= |rest|
  {
    if n < 0xD800 || 0xE000 <= n then (n as char, rest)
    else if n < 0xDC00 && |rest| >= 6 && rest[0] == '\\' && rest[1] == 'u' && Hex4(rest[2..]).Some?
            && 0xDC00 <= Hex4(rest[2..]).value < 0xE000
    then ((0x1_0000 + (n - 0xD800) * 0x400 + (Hex4(rest[2..]).value - 0xDC00)) as char, rest[6..])
    else (0xFFFD as char, rest)
  }

  /** The body of a string up to its closing quote, and what follows the quote. */
  function ParseChars(s: string): (r: Option<(string, string)>)
    ensures r.Some? ==> |r.value.1| < |s|
    decreases |s|
  {
    if s != "" && s[0] == '"' then Some(("", s[1..]))
    else
      match NextChar(s)
      case None => None
      case Some((c, rest)) =>
        match ParseChars(rest)
        case None => None
        case Some((body, after)) => Some(([c] + body, after))
  }

  lemma HexRoundTrip(d: int)
    requires 0 <= d < 16
    ensures HexValue(HexDigit(d)) == Some(d)
  {
  }

  lemma Hex4ReadsBack(n: int, hex: string, rest: string)
    requires 0 <= n < 0x1_0000 && hex == Unicode(n)[2..]
    ensures Hex4(hex + rest) == Some(n)
  {
    HexRoundTrip(n / 4096);
    HexRoundTrip(n / 256 % 16);
    HexRoundTrip(n / 16 % 16);
    HexRoundTrip(n % 16);
    HexSum(n);
  }

  lemma HexSum(n: int)
    requires 0 <= n < 0x1_0000
    ensures n / 4096 * 4096 + n / 256 % 16 * 256 + n / 16 % 16 * 16 + n % 16 == n
  {
    assert n / 256 == n / 4096 * 16 + n / 256 % 16;
    assert n / 16 == n / 256 * 16 + n / 16 % 16;
  }

  lemma EscapeReadsBack(w: Writer, c: char, rest: string)
    ensures NextChar(Escape(w, c) + rest) == Some((c, rest))
    ensures Escape(w, c)[0] != '"'
  {
    if |Escape(w, c)| == 6 {
      UnitReads(c as int, rest);
    } else {
      var s := Escape(w, c) + rest;
      assert s[|Escape(w, c)|..] == rest;
    }
  }

  /** Both cases of the hexadecimal digits are read, and the small ones are written. */
  lemma HexIs(d: int, c: char)
    requires 0 <= d < 16
    ensures HexDigit(d) == "0123456789abcdef"[d]
    ensures HexValue(c) == Some(d) <==> c == "0123456789abcdef"[d] || c == "0123456789ABCDEF"[d]
  {
  }

  /** What each writer puts for the characters that need care. */
  lemma EscapeTable(w: Writer)
    ensures Escape(w, '"') == "\\\"" && Escape(w, '\\') == "\\\\"
    ensures Escape(w, '\n') == "\\n" && Escape(w, '\r') == "\\r" && Escape(w, '\t') == "\\t"
    ensures Escape(w, 8 as char) == "\\b" && Escape(w, 12 as char) == "\\f"
    ensures Escape(w, 0x1B as char) == "\\u001b" && Escape(w, 0x1F as char) == "\\u001f"
    ensures Escape(Go, '<') == "\\u003c" && Escape(Go, '>') == "\\u003e" && Escape(Go, '&') == "\\u0026"
    ensures Escape(Js, '<') == "<" && Escape(Js, '>') == ">" && Escape(Js, '&') == "&"
    ensures Escape(Go, 0x2028 as char) == "\\u2028" && Escape(Js, 0x2028 as char) == [0x2028 as char]
  {
  }

  predicate IsHigh(n: int) {
    0xD800 <= n < 0xDC00
  }

  predicate IsLow(n: int) {
    0xDC00 <= n < 0xE000
  }

  /** Half a surrogate pair, with no matching half behind it, reads as the replacement character. */
  lemma LoneSurrogateReads(n: int, next: int, rest: string)
    requires IsHigh(n) || IsLow(n)
    requires 0 <= next < 0x1_0000 && !(IsHigh(n) && IsLow(next))
    ensures NextChar(Unicode(n) + (Unicode(next) + rest)) == Some((0xFFFD as char, Unicode(next) + rest))
  {
    UnitReads(n, Unicode(next) + rest);
    Hex4ReadsBack(next, Unicode(next)[2..], rest);
    assert (Unicode(next) + rest)[2..] == Unicode(next)[2..] + rest;
  }

  lemma LastSurrogateReads(n: int, rest: string)
    requires (IsHigh(n) || IsLow(n)) && (rest == "" || rest[0] != '\\')
    ensures NextChar(Unicode(n) + rest) == Some((0xFFFD as char, rest))
  {
    UnitReads(n, rest);
  }

  lemma PairReads(high: int, low: int, rest: string)
    requires IsHigh(high) && IsLow(low)
    ensures NextChar(Unicode(high) + (Unicode(low) + rest))
         == Some(((0x1_0000 + (high - 0xD800) * 0x400 + (low - 0xDC00)) as char, rest))
  {
    var tail := Unicode(low) + rest;
    UnitReads(high, tail);
    Hex4ReadsBack(low, Unicode(low)[2..], rest);
    assert tail[2..] == Unicode(low)[2..] + rest && tail[6..] == rest;
  }

  /** A character outside the basic plane, escaped as section 7 of RFC 8259 says: as its two surrogates. */
  lemma SurrogatesRead(c: char, rest: string)
    requires 0x1_0000 <= c as int
    ensures var n := c as int - 0x1_0000;
      NextChar(Unicode(0xD800 + n / 0x400) + (Unicode(0xDC00 + n % 0x400) + rest)) == Some((c, rest))
  {
    var n := c as int - 0x1_0000;
    PairReads(0xD800 + n / 0x400, 0xDC00 + n % 0x400, rest);
  }

  lemma UnitReads(n: int, rest: string)
    requires 0 <= n < 0x1_0000
    ensures NextChar(Unicode(n) + rest) == Some(FromUnit(n, rest))
  {
    var s := Unicode(n) + rest;
    assert s[2..] == Unicode(n)[2..] + rest && s[6..] == rest;
    Hex4ReadsBack(n, Unicode(n)[2..], rest);
  }

  /** What may follow a backslash besides `u`, and what it stands for: section 7 of RFC 8259. */
  const SHORT_ESCAPES: string := "\"\\/bfnrt"
  const SHORT_MEANINGS: string := "\"\\/\U{08}\U{0C}\n\r\t"

  lemma ShortEscapeReads(i: nat, rest: string)
    requires i < 8
    ensures |SHORT_ESCAPES| == |SHORT_MEANINGS| == 8
    ensures NextChar(['\\', SHORT_ESCAPES[i]] + rest) == Some((SHORT_MEANINGS[i], rest))
  {
    var s := ['\\', SHORT_ESCAPES[i]] + rest;
    assert s[2..] == rest && s[1] == SHORT_ESCAPES[i];
  }

  lemma Joined(head: string, tail: string, rest: string)
    ensures (head + tail) + rest == head + (tail + rest)
  {
  }

  lemma {:induction false} CharsReadBack(w: Writer, s: string, rest: string)
    ensures ParseChars(EscapeAll(w, s) + ("\"" + rest)) == Some((s, rest))
  {
    if s == "" {
      assert EscapeAll(w, s) + ("\"" + rest) == "\"" + rest;
      assert ("\"" + rest)[1..] == rest;
    } else {
      var tail := EscapeAll(w, s[1..]) + ("\"" + rest);
      Joined(Escape(w, s[0]), EscapeAll(w, s[1..]), "\"" + rest);
      EscapeReadsBack(w, s[0], tail);
      CharsReadBack(w, s[1..], rest);
      assert [s[0]] + s[1..] == s;
    }
  }

  // ---------- numbers ----------

  function DecDigit(d: int): char
    requires 0 <= d < 10
  {
    '0' + d as char
  }

  function Digits(n: nat): (s: string)
    ensures s != "" && IsDigit(s[0])
    ensures s[0] == '0' ==> n == 0
  {
    if n < 10 then [DecDigit(n)] else Digits(n / 10) + [DecDigit(n % 10)]
  }

  predicate IsDigit(c: char) {
    '0' <= c <= '9'
  }

  function ParseDigits(s: string, acc: int): (r: (int, string))
    ensures |r.1| <= |s|
  {
    if s == "" || !IsDigit(s[0]) then (acc, s) else ParseDigits(s[1..], acc * 10 + (s[0] as int - '0' as int))
  }

  /** An integer without leading zeros. A fraction or an exponent is refused, as Go does for an integer field. */
  function ParseNumber(s: string): (r: Option<(int, string)>)
    ensures r.Some? ==> |r.value.1| < |s|
  {
    if s == "" then None
    else
      var body := if s[0] == '-' then s[1..] else s;
      if body == "" || !IsDigit(body[0]) then None
      else
        var (n, rest) := if body[0] == '0' then (0, body[1..]) else ParseDigits(body[1..], body[0] as int - '0' as int);
        if rest != "" && (rest[0] == '.' || rest[0] == 'e' || rest[0] == 'E') then None
        else Some((if s[0] == '-' then -n else n, rest))
  }

  function RenderNumber(n: int): (s: string)
    ensures s != "" && (s[0] == '-' || IsDigit(s[0]))
  {
    if n < 0 then "-" + Digits(-n) else Digits(n)
  }

  /** What may follow a number inside an object. */
  predicate Delimited(rest: string) {
    rest != "" && (rest[0] == ',' || rest[0] == '}' || IsSpace(rest[0]))
  }

  lemma {:induction false} DigitsReadBack(n: nat, rest: string)
    requires n > 0
    ensures var s := Digits(n) + rest;
      IsDigit(s[0]) && s[0] != '0' && ParseDigits(s[1..], s[0] as int - '0' as int) == ParseDigits(rest, n)
  {
    if n < 10 {
      assert (Digits(n) + rest)[1..] == rest;
    } else {
      var last := [DecDigit(n % 10)];
      DigitsReadBack(n / 10, last + rest);
      assert Digits(n) + rest == Digits(n / 10) + (last + rest);
      assert (last + rest)[1..] == rest;
    }
  }

  /** The digits of a number, and what stands behind them. */
  lemma DigitsThen(m: nat, rest: string)
    requires rest != "" && !IsDigit(rest[0])
    ensures var body := Digits(m) + rest;
      && IsDigit(body[0])
      && if body[0] == '0' then m == 0 && body[1..] == rest
         else ParseDigits(body[1..], body[0] as int - '0' as int) == (m, rest)
  {
    if m > 0 {
      DigitsReadBack(m, rest);
    } else {
      assert (Digits(m) + rest)[1..] == rest;
    }
  }

  lemma Signed(n: int, rest: string)
    ensures RenderNumber(n) + rest == if n < 0 then "-" + (Digits(-n) + rest) else Digits(n) + rest
  {
  }

  lemma BodyReads(body: string, m: int, rest: string, minus: bool)
    requires body != "" && IsDigit(body[0]) && rest != ""
    requires if body[0] == '0' then m == 0 && body[1..] == rest
             else ParseDigits(body[1..], body[0] as int - '0' as int) == (m, rest)
    ensures ParseNumber(if minus then "-" + body else body)
         == if rest[0] == '.' || rest[0] == 'e' || rest[0] == 'E' then None else Some((if minus then -m else m, rest))
  {
    assert ("-" + body)[1..] == body;
  }

  /** A number reads as itself whatever follows, unless that makes it a fraction or gives it an exponent. */
  lemma NumberReads(n: int, rest: string)
    requires rest != "" && !IsDigit(rest[0])
    ensures ParseNumber(RenderNumber(n) + rest)
         == if rest[0] == '.' || rest[0] == 'e' || rest[0] == 'E' then None else Some((n, rest))
  {
    var m := if n < 0 then -n else n;
    DigitsThen(m, rest);
    Signed(n, rest);
    BodyReads(Digits(m) + rest, m, rest, n < 0);
  }

  // ---------- values, members, objects ----------

  predicate IsSpace(c: char) {
    c == ' ' || c == '\t' || c == '\n' || c == '\r'
  }

  function SkipSpace(s: string): (r: string)
    ensures |r| <= |s|
    ensures s != "" && !IsSpace(s[0]) ==> r == s
  {
    if s != "" && IsSpace(s[0]) then SkipSpace(s[1..]) else s
  }

  function RenderScalar(w: Writer, v: Scalar): (s: string)
  {
    match v
    case Text(t) => "\"" + EscapeAll(w, t) + "\""
    case Number(n) => RenderNumber(n)
    case Bool(b) => if b then "true" else "false"
    case Null => "null"
  }

  function ParseScalar(s: string): (r: Option<(Scalar, string)>)
    ensures r.Some? ==> |r.value.1| < |s|
  {
    if s == "" then None
    else if s[0] == '"' then
      match ParseChars(s[1..]) {
        case None => None
        case Some((t, rest)) => Some((Text(t), rest))
      }
    else if "true" <= s then Some((Bool(true), s[4..]))
    else if "false" <= s then Some((Bool(false), s[5..]))
    else if "null" <= s then Some((Null, s[4..]))
    else
      match ParseNumber(s)
      case None => None
      case Some((n, rest)) => Some((Number(n), rest))
  }

  function RenderMember(w: Writer, m: Member): string {
    "\"" + EscapeAll(w, m.key) + "\":" + RenderScalar(w, m.val)
  }

  function ParseMember(s: string): (r: Option<(Member, string)>)
    ensures r.Some? ==> |r.value.1| < |s|
  {
    if s == "" || s[0] != '"' then None
    else
      match ParseChars(s[1..])
      case None => None
      case Some((key, rest)) =>
        var colon := SkipSpace(rest);
        if colon == "" || colon[0] != ':' then None
        else
          match ParseScalar(SkipSpace(colon[1..]))
          case None => None
          case Some((v, after)) => Some((Member(key, v), after))
  }

  function RenderMembers(w: Writer, ms: seq<Member>): string {
    if ms == [] then "}"
    else if |ms| == 1 then RenderMember(w, ms[0]) + "}"
    else RenderMember(w, ms[0]) + ("," + RenderMembers(w, ms[1..]))
  }

  /** At least one member, then the closing brace; the rest of the text is returned. */
  function ParseMembers(s: string): (r: Option<(seq<Member>, string)>)
    decreases |s|
  {
    match ParseMember(s)
    case None => None
    case Some((m, rest)) =>
      var next := SkipSpace(rest);
      if next == "" then None
      else if next[0] == '}' then Some(([m], next[1..]))
      else if next[0] != ',' then None
      else
        match ParseMembers(SkipSpace(next[1..]))
        case None => None
        case Some((ms, after)) => Some(([m] + ms, after))
  }

  function RenderObject(w: Writer, ms: seq<Member>): string {
    "{" + RenderMembers(w, ms)
  }

  function ParseObject(s: string): (ms: Option<seq<Member>>)
  {
    var open := SkipSpace(s);
    if open == "" || open[0] != '{' then None
    else
      var body := SkipSpace(open[1..]);
      if body != "" && body[0] == '}' then (if SkipSpace(body[1..]) == "" then Some([]) else None)
      else
        match ParseMembers(body)
        case None => None
        case Some((ms, rest)) => if SkipSpace(rest) == "" then Some(ms) else None
  }

  lemma ScalarReadsBack(w: Writer, v: Scalar, rest: string)
    requires Delimited(rest)
    ensures ParseScalar(RenderScalar(w, v) + rest) == Some((v, rest))
    ensures RenderScalar(w, v) != "" && !IsSpace(RenderScalar(w, v)[0])
  {
    match v {
      case Text(t) =>
        CharsReadBack(w, t, rest);
        TextParts(EscapeAll(w, t), rest);
      case Number(n) =>
        NumberReads(n, rest);
        NumberIsNoWord(RenderNumber(n), rest);
      case Bool(b) =>
        WordParts(if b then "true" else "false", rest);
      case Null =>
        WordParts("null", rest);
    }
  }

  lemma TextParts(body: string, rest: string)
    ensures "\"" + body + "\"" + rest == "\"" + (body + ("\"" + rest))
    ensures ("\"" + (body + ("\"" + rest)))[1..] == body + ("\"" + rest)
  {
  }

  lemma NumberIsNoWord(num: string, rest: string)
    requires num != "" && (num[0] == '-' || IsDigit(num[0])) && ParseNumber(num + rest).Some?
    ensures ParseScalar(num + rest) == Some((Number(ParseNumber(num + rest).value.0), ParseNumber(num + rest).value.1))
  {
    assert (num + rest)[0] == num[0];
  }

  lemma WordParts(word: string, rest: string)
    ensures word <= word + rest && (word + rest)[|word|..] == rest
    ensures word != "" ==> (word + rest)[0] == word[0]
  {
  }

  // ---------- reading objects back, however they are spaced ----------

  predicate Blank(sp: string) {
    forall i | 0 <= i < |sp| :: sp[i] in " \t\n\r"
  }

  lemma {:induction false} SkipBlank(sp: string, s: string)
    requires Blank(sp)
    ensures SkipSpace(sp + s) == SkipSpace(s)
  {
    if sp == "" {
      assert sp + s == s;
    } else {
      assert sp[0] in " \t\n\r";
      assert (sp + s)[1..] == sp[1..] + s;
      SkipBlank(sp[1..], s);
    }
  }

  /** With `sp` before and after every token. */
  function MemberText(w: Writer, sp: string, m: Member, rest: string): string {
    "\"" + (EscapeAll(w, m.key) + ("\"" + (sp + (":" + (sp + (RenderScalar(w, m.val) + rest))))))
  }

  function MembersText(w: Writer, sp: string, ms: seq<Member>, rest: string): string
    requires ms != []
  {
    if |ms| == 1 then MemberText(w, sp, ms[0], sp + ("}" + rest))
    else MemberText(w, sp, ms[0], sp + ("," + (sp + MembersText(w, sp, ms[1..], rest))))
  }

  function ObjectText(w: Writer, sp: string, ms: seq<Member>, rest: string): string {
    sp + ("{" + (sp + if ms == [] then "}" + rest else MembersText(w, sp, ms, rest)))
  }

  lemma AfterSpace(sp: string, c: char, rest: string)
    requires Blank(sp) && !IsSpace(c)
    ensures SkipSpace(sp + ([c] + rest)) == [c] + rest
    ensures c == ',' || c == '}' ==> Delimited(sp + ([c] + rest))
  {
    SkipBlank(sp, [c] + rest);
    if sp != "" {
      assert sp[0] in " \t\n\r";
    }
  }

  lemma MemberTextReads(w: Writer, sp: string, m: Member, rest: string)
    requires Blank(sp) && Delimited(rest)
    ensures ParseMember(MemberText(w, sp, m, rest)) == Some((m, rest))
    ensures MemberText(w, sp, m, rest) != "" && MemberText(w, sp, m, rest)[0] == '"'
  {
    var value := RenderScalar(w, m.val) + rest;
    var colon := ":" + (sp + value);
    ScalarReadsBack(w, m.val, rest);
    CharsReadBack(w, m.key, sp + colon);
    AfterSpace(sp, ':', sp + value);
    assert value[0] == RenderScalar(w, m.val)[0];
    SkipBlank(sp, value);
    MemberTextParts(EscapeAll(w, m.key) + ("\"" + (sp + colon)), m, sp + colon, sp + value, value, rest);
  }

  lemma MemberTextParts(body: string, m: Member, after: string, spaced: string, value: string, rest: string)
    requires ParseChars(body) == Some((m.key, after)) && SkipSpace(after) == ":" + spaced && SkipSpace(spaced) == value
    requires ParseScalar(value) == Some((m.val, rest))
    ensures ParseMember("\"" + body) == Some((m, rest))
  {
    assert ("\"" + body)[1..] == body && (":" + spaced)[1..] == spaced;
  }

  lemma LastText(s: string, m: Member, after: string, rest: string)
    requires ParseMember(s) == Some((m, after)) && SkipSpace(after) == "}" + rest
    ensures ParseMembers(s) == Some(([m], rest))
  {
    assert ("}" + rest)[1..] == rest;
  }

  lemma MoreText(s: string, m: Member, after: string, spaced: string, more: string, ms: seq<Member>, rest: string)
    requires ParseMember(s) == Some((m, after)) && SkipSpace(after) == "," + spaced && SkipSpace(spaced) == more
    requires ParseMembers(more) == Some((ms, rest))
    ensures ParseMembers(s) == Some(([m] + ms, rest))
  {
    assert ("," + spaced)[1..] == spaced;
  }

  lemma OneTextReads(w: Writer, sp: string, m: Member, rest: string)
    requires Blank(sp)
    ensures var s := MemberText(w, sp, m, sp + ("}" + rest));
      ParseMembers(s) == Some(([m], rest)) && s != "" && s[0] == '"'
  {
    var after := sp + ("}" + rest);
    AfterSpace(sp, '}', rest);
    MemberTextReads(w, sp, m, after);
    LastText(MemberText(w, sp, m, after), m, after, rest);
  }

  lemma OneMoreTextReads(w: Writer, sp: string, m: Member, more: string, ms: seq<Member>, rest: string)
    requires Blank(sp) && more != "" && more[0] == '"' && ParseMembers(more) == Some((ms, rest))
    ensures var s := MemberText(w, sp, m, sp + ("," + (sp + more)));
      ParseMembers(s) == Some(([m] + ms, rest)) && s != "" && s[0] == '"'
  {
    var after := sp + ("," + (sp + more));
    AfterSpace(sp, ',', sp + more);
    SkipBlank(sp, more);
    MemberTextReads(w, sp, m, after);
    MoreText(MemberText(w, sp, m, after), m, after, sp + more, more, ms, rest);
  }

  lemma {:induction false} MembersTextReads(w: Writer, sp: string, ms: seq<Member>, rest: string)
    requires Blank(sp) && ms != []
    ensures ParseMembers(MembersText(w, sp, ms, rest)) == Some((ms, rest))
    ensures MembersText(w, sp, ms, rest) != "" && MembersText(w, sp, ms, rest)[0] == '"'
  {
    if |ms| == 1 {
      OneTextReads(w, sp, ms[0], rest);
      assert ms == [ms[0]];
    } else {
      MembersTextReads(w, sp, ms[1..], rest);
      OneMoreTextReads(w, sp, ms[0], MembersText(w, sp, ms[1..], rest), ms[1..], rest);
      assert ms == [ms[0]] + ms[1..];
    }
  }

  /**
   An object reads as its members however its tokens are spaced; and with anything but white space behind it, the whole
   text is no object.
   */
  lemma SpacedObjectReads(w: Writer, sp: string, ms: seq<Member>, rest: string)
    requires Blank(sp)
    ensures ParseObject(ObjectText(w, sp, ms, rest)) == if Blank(rest) then Some(ms) else None
  {
    var inner := if ms == [] then "}" + rest else MembersText(w, sp, ms, rest);
    AfterSpace(sp, '{', sp + inner);
    assert ("{" + (sp + inner))[1..] == sp + inner;
    SkipBlank(sp, inner);
    BlankIff(rest);
    if ms == [] {
      assert inner[1..] == rest;
    } else {
      MembersTextReads(w, sp, ms, rest);
    }
  }

  lemma {:induction false} BlankIff(s: string)
    ensures SkipSpace(s) == "" <==> Blank(s)
  {
    if s != "" {
      BlankIff(s[1..]);
      assert s == [s[0]] + s[1..];
      if Blank(s[1..]) && s[0] in " \t\n\r" {
        assert Blank(s) by {
          forall i | 0 <= i < |s| ensures s[i] in " \t\n\r" {
            if i > 0 {
              assert s[i] == s[1..][i - 1];
            }
          }
        }
      }
      if Blank(s) {
        forall i | 0 <= i < |s[1..]| ensures s[1..][i] in " \t\n\r" {
          assert s[1..][i] == s[i + 1];
        }
      }
    }
  }

  lemma UnspacedMember(w: Writer, m: Member, rest: string)
    ensures MemberText(w, "", m, rest) == RenderMember(w, m) + rest
  {
    Unspaced(EscapeAll(w, m.key), RenderScalar(w, m.val), rest);
  }

  lemma Unspaced(key: string, value: string, rest: string)
    ensures "\"" + (key + ("\"" + ("" + (":" + ("" + (value + rest)))))) == "\"" + key + "\":" + value + rest
  {
  }

  lemma Nothing(a: string, b: string)
    ensures "" + (a + "") == a && "" + (a + ("" + b)) == a + b
  {
  }

  /** Without spaces and with nothing behind it, that is the text the writers produce. */
  lemma {:induction false} UnspacedMembers(w: Writer, ms: seq<Member>)
    requires ms != []
    ensures MembersText(w, "", ms, "") == RenderMembers(w, ms)
  {
    if |ms| == 1 {
      Nothing("}", "");
      UnspacedMember(w, ms[0], "}");
    } else {
      UnspacedMembers(w, ms[1..]);
      Nothing(",", RenderMembers(w, ms[1..]));
      UnspacedMember(w, ms[0], "," + RenderMembers(w, ms[1..]));
    }
  }

  lemma UnspacedObject(w: Writer, ms: seq<Member>)
    ensures ObjectText(w, "", ms, "") == RenderObject(w, ms)
  {
    if ms != [] {
      UnspacedMembers(w, ms);
    }
  }

  /** Either writer's output reads back as the members that were written, whatever characters they hold. */
  lemma ObjectRoundTrip(w: Writer, ms: seq<Member>)
    ensures ParseObject(RenderObject(w, ms)) == Some(ms)
  {
    UnspacedObject(w, ms);
    SpacedObjectReads(w, "", ms, "");
  }

  // ---------- lines ----------

  lemma {:induction false} EscapeAllOneLine(w: Writer, s: string)
    ensures '\n' !in EscapeAll(w, s)
  {
    if s != "" {
      EscapeAllOneLine(w, s[1..]);
      assert '\n' !in Escape(w, s[0]);
    }
  }

  lemma ScalarOneLine(w: Writer, v: Scalar)
    ensures '\n' !in RenderScalar(w, v)
  {
    match v {
      case Text(t) => EscapeAllOneLine(w, t);
      case Number(n) => DigitsOneLine(if n < 0 then -n else n);
      case _ =>
    }
  }

  lemma {:induction false} DigitsOneLine(n: nat)
    ensures '\n' !in Digits(n)
  {
    if n >= 10 {
      DigitsOneLine(n / 10);
    }
  }

  /** A rendered object never contains a newline, so a newline can separate objects. */
  lemma {:induction false} MembersOneLine(w: Writer, ms: seq<Member>)
    ensures '\n' !in RenderMembers(w, ms)
  {
    if ms != [] {
      EscapeAllOneLine(w, ms[0].key);
      ScalarOneLine(w, ms[0].val);
      MembersOneLine(w, ms[1..]);
    }
  }
}
