/** Standard base64 with padding: section 4 of RFC 4648, decoded the way Go's `base64.StdEncoding` does. */
module Base64 {
  import opened Bytes
  import opened Wrappers

  type Sextet = x: int | 0 <= x < 64

  function Digit(v: Sextet): (c: char)
  {
    if v < 26 then 'A' + v as char
    else if v < 52 then 'a' + (v - 26) as char
    else if v < 62 then '0' + (v - 52) as char
    else if v == 62 then '+'
    else '/'
  }

  function Value(c: char): (v: Option<Sextet>)
  {
    if 'A' <= c <= 'Z' then Some(c as int - 'A' as int)
    else if 'a' <= c <= 'z' then Some(c as int - 'a' as int + 26)
    else if '0' <= c <= '9' then Some(c as int - '0' as int + 52)
    else if c == '+' then Some(62)
    else if c == '/' then Some(63)
    else None
  }

  lemma ValueOfDigit(v: Sextet)
    ensures Value(Digit(v)) == Some(v) && Digit(v) != '='
  {
  }

  function Encode(b: seq<Byte>): (s: string)
  {
    if b == [] then ""
    else if |b| == 1 then [Digit(b[0] / 4), Digit(b[0] % 4 * 16), '=', '=']
    else if |b| == 2 then [Digit(b[0] / 4), Digit(b[0] % 4 * 16 + b[1] / 16), Digit(b[1] % 16 * 4), '=']
    else Quad(b[0], b[1], b[2]) + Encode(b[3..])
  }

  /** Go skips carriage returns and line feeds inside the encoded text. */
  function DropNewlines(s: string): string {
    if s == "" then ""
    else (if s[0] == '\r' || s[0] == '\n' then "" else [s[0]]) + DropNewlines(s[1..])
  }

  function DecodeString(s: string): (b: Option<seq<Byte>>)
  {
    DecodeQuads(DropNewlines(s))
  }

  function FirstByte(v: Sextet, w: Sextet): Byte {
    v * 4 + w / 16
  }

  function SecondByte(w: Sextet, x: Sextet): Byte {
    w % 16 * 16 + x / 4
  }

  function ThirdByte(x: Sextet, y: Sextet): Byte {
    x % 4 * 64 + y
  }

  /** Quads of digits; padding only at the very end. The unused low bits of the last digit are not checked. */
  function DecodeQuads(s: string): (b: Option<seq<Byte>>)
  {
    if s == "" then Some([])
    else if |s| < 4 then None
    else
      match (Value(s[0]), Value(s[1]), Value(s[2]), Value(s[3]))
      case (Some(v), Some(w), Some(x), Some(y)) =>
        (match DecodeQuads(s[4..])
         case Some(rest) => Some([FirstByte(v, w), SecondByte(w, x), ThirdByte(x, y)] + rest)
         case None => None)
      case (Some(v), Some(w), Some(x), None) =>
        if s[3] == '=' && |s| == 4 then Some([FirstByte(v, w), SecondByte(w, x)]) else None
      case (Some(v), Some(w), None, None) =>
        if s[2] == '=' && s[3] == '=' && |s| == 4 then Some([FirstByte(v, w)]) else None
      case _ => None
  }

  lemma {:induction false} DecodeQuadsEncode(b: seq<Byte>)
    ensures DecodeQuads(Encode(b)) == Some(b)
  {
    if b == [] {
    } else if |b| == 1 {
      ValueOfDigit(b[0] / 4);
      ValueOfDigit(b[0] % 4 * 16);
      assert b == [b[0]];
    } else if |b| == 2 {
      ValueOfDigit(b[0] / 4);
      ValueOfDigit(b[0] % 4 * 16 + b[1] / 16);
      ValueOfDigit(b[1] % 16 * 4);
      assert b == [b[0], b[1]];
    } else {
      DecodeQuadsEncode(b[3..]);
      FirstQuad(b, Encode(b[3..]));
    }
  }

  /** The four digits of three bytes. */
  function Quad(p: Byte, q: Byte, r: Byte): (d: string)
    ensures |d| == 4
    ensures Value(d[0]) == Some(p / 4) && Value(d[1]) == Some(p % 4 * 16 + q / 16)
    ensures Value(d[2]) == Some(q % 16 * 4 + r / 64) && Value(d[3]) == Some(r % 64)
  {
    ValueOfDigit(p / 4);
    ValueOfDigit(p % 4 * 16 + q / 16);
    ValueOfDigit(q % 16 * 4 + r / 64);
    ValueOfDigit(r % 64);
    [Digit(p / 4), Digit(p % 4 * 16 + q / 16), Digit(q % 16 * 4 + r / 64), Digit(r % 64)]
  }

  lemma FirstQuad(b: seq<Byte>, tail: string)
    requires |b| >= 3 && DecodeQuads(tail) == Some(b[3..])
    ensures DecodeQuads(Quad(b[0], b[1], b[2]) + tail) == Some(b)
  {
    QuadDecodes(b[0], b[1], b[2], tail, b[3..]);
    assert b == [b[0], b[1], b[2]] + b[3..];
  }

  lemma QuadDecodes(p: Byte, q: Byte, r: Byte, tail: string, rest: seq<Byte>)
    requires DecodeQuads(tail) == Some(rest)
    ensures DecodeQuads(Quad(p, q, r) + tail) == Some([p, q, r] + rest)
  {
    Regroup(p, q, r);
    QuadStep(Quad(p, q, r), tail, p / 4, p % 4 * 16 + q / 16, q % 16 * 4 + r / 64, r % 64, rest);
  }

  lemma QuadStep(quad: string, tail: string, v: Sextet, w: Sextet, x: Sextet, y: Sextet, rest: seq<Byte>)
    requires |quad| == 4 && DecodeQuads(tail) == Some(rest)
    requires Value(quad[0]) == Some(v) && Value(quad[1]) == Some(w)
    requires Value(quad[2]) == Some(x) && Value(quad[3]) == Some(y)
    ensures DecodeQuads(quad + tail) == Some([FirstByte(v, w), SecondByte(w, x), ThirdByte(x, y)] + rest)
  {
    assert (quad + tail)[4..] == tail;
  }

  lemma Regroup(p: Byte, q: Byte, r: Byte)
    ensures FirstByte(p / 4, p % 4 * 16 + q / 16) == p
    ensures SecondByte(p % 4 * 16 + q / 16, q % 16 * 4 + r / 64) == q
    ensures ThirdByte(q % 16 * 4 + r / 64, r % 64) == r
  {
  }

  /** A character of the base64 alphabet or padding: printable, and never escaped by a JSON writer. */
  predicate Plain(c: char) {
    Value(c).Some? || c == '='
  }

  lemma {:induction false} EncodeIsPlain(b: seq<Byte>)
    ensures forall c <- Encode(b) :: Plain(c)
  {
    if |b| >= 3 {
      EncodeIsPlain(b[3..]);
    }
  }

  lemma {:induction false} PlainHasNoNewlines(s: string)
    requires forall c <- s :: Plain(c)
    ensures DropNewlines(s) == s
  {
    if s != "" {
      assert s == [s[0]] + s[1..] && Plain(s[0]);
      PlainHasNoNewlines(s[1..]);
    }
  }

  lemma RoundTrip(b: seq<Byte>)
    ensures DecodeString(Encode(b)) == Some(b)
  {
    EncodeIsPlain(b);
    PlainHasNoNewlines(Encode(b));
    DecodeQuadsEncode(b);
  }

  // ---------- against the standard ----------

  /** Table 1 of RFC 4648. */
  const ALPHABET: string := CAPITALS + SMALL_LETTERS + "0123456789+/"
  const CAPITALS: string := "ABCDEFGHIJKLMNOPQRSTUVWXYZ"
  const SMALL_LETTERS: string := "abcdefghijklmnopqrstuvwxyz"

  /** The digit of a value is the table's entry for it, and only that character has the value. */
  lemma DigitIsTable(v: Sextet, c: char)
    ensures |ALPHABET| == 64 && Digit(v) == ALPHABET[v]
    ensures Value(c) == Some(v) <==> c == ALPHABET[v]
  {
    if v < 52 { TableLetters(v); }
  }

  lemma TableLetters(v: Sextet)
    requires v < 52
    ensures Digit(v) == if v < 26 then CAPITALS[v] else SMALL_LETTERS[v - 26]
  {
  }

  /** The number that a digit stands for; padding stands for zero bits. */
  function Bits(c: char): Sextet {
    if Value(c).Some? then Value(c).value else 0
  }

  /** The 24 bits of four digits, and of three bytes. */
  function DigitBits(d: string): int
    requires |d| == 4
  {
    Bits(d[0]) * 0x4_0000 + Bits(d[1]) * 0x1000 + Bits(d[2]) * 0x40 + Bits(d[3])
  }

  function ByteBits(p: int, q: int, r: int): int {
    p * 0x1_0000 + q * 0x100 + r
  }

  lemma QuadBits(p: Byte, q: Byte, r: Byte)
    ensures DigitBits(Quad(p, q, r)) == ByteBits(p, q, r)
    ensures forall i | 0 <= i < 4 :: Quad(p, q, r)[i] != '='
  {
    assert Value('=').None?;
  }

  lemma ShortBits(b: seq<Byte>)
    requires 1 <= |b| <= 2
    ensures |Encode(b)| == 4 && DigitBits(Encode(b)) == ByteBits(b[0], if |b| == 2 then b[1] else 0, 0)
    ensures Encode(b)[0] != '=' && Encode(b)[1] != '=' && Encode(b)[3] == '='
    ensures Encode(b)[2] == '=' <==> |b| == 1
  {
    assert Value('=').None?;
    ValueOfDigit(b[0] / 4);
    if |b| == 1 {
      ValueOfDigit(b[0] % 4 * 16);
    } else {
      ValueOfDigit(b[0] % 4 * 16 + b[1] / 16);
      ValueOfDigit(b[1] % 16 * 4);
    }
  }

  /**
   Section 4 of RFC 4648: each group of four digits holds the same 24 bits as its three bytes, and a short last group is
   filled up with zero bits, with one padding character for each byte that is missing.
   */
  lemma EncodeIsStandard(b: seq<Byte>)
    requires b != []
    ensures |Encode(b)| >= 4
    ensures DigitBits(Encode(b)[..4])
         == ByteBits(b[0], if |b| >= 2 then b[1] else 0, if |b| >= 3 then b[2] else 0)
    ensures Encode(b)[0] != '=' && Encode(b)[1] != '='
    ensures (Encode(b)[2] == '=' <==> |b| == 1) && (Encode(b)[3] == '=' <==> |b| <= 2)
    ensures Encode(b)[4..] == if |b| <= 3 then "" else Encode(b[3..])
  {
    if |b| < 3 {
      ShortBits(b);
      assert Encode(b)[..4] == Encode(b);
    } else {
      QuadBits(b[0], b[1], b[2]);
      Front(Quad(b[0], b[1], b[2]), Encode(b[3..]));
    }
  }

  lemma Front(quad: string, tail: string)
    requires |quad| == 4
    ensures (quad + tail)[..4] == quad && (quad + tail)[4..] == tail
  {
  }

  /** `n` letters of the alphabet, and nothing but padding after them. */
  predicate LettersThenPads(alphabet: string, s: string, n: nat) {
    && n <= |s|
    && (forall i | 0 <= i < n :: s[i] in alphabet)
    && (forall i | n <= i < |s| :: s[i] == '=')
  }

  /** Whole quads, the last of which may end in one or two padding characters. */
  predicate WellPadded(alphabet: string, s: string) {
    |s| % 4 == 0 && exists n | |s| - 2 <= n <= |s| :: 0 <= n && LettersThenPads(alphabet, s, n)
  }

  ghost predicate HasValues(alphabet: string) {
    forall c: char :: c in alphabet <==> Value(c).Some?
  }

  lemma TableHasValues()
    ensures HasValues(ALPHABET)
  {
    forall c: char ensures c in ALPHABET <==> Value(c).Some? {
      if Value(c).Some? {
        DigitIsTable(Value(c).value, c);
      } else {
        DigitIsTable(0, c);
        forall v: int | 0 <= v < 64 ensures ALPHABET[v] != c {
          DigitIsTable(v, c);
        }
      }
    }
  }

  lemma LastQuad(alphabet: string, s: string)
    requires HasValues(alphabet) && |s| == 4
    ensures DecodeQuads(s).Some? <==> WellPadded(alphabet, s)
  {
    assert s[4..] == "" && Value('=').None?;
    if DecodeQuads(s).Some? {
      assert LettersThenPads(alphabet, s, if Value(s[3]).Some? then 4 else if Value(s[2]).Some? then 3 else 2);
    }
  }

  lemma MoreQuads(alphabet: string, s: string)
    requires |s| > 4
    ensures WellPadded(alphabet, s) <==> (forall i | 0 <= i < 4 :: s[i] in alphabet) && WellPadded(alphabet, s[4..])
  {
    var rest := s[4..];
    if WellPadded(alphabet, s) {
      var n :| |s| - 2 <= n <= |s| && 0 <= n && LettersThenPads(alphabet, s, n);
      assert LettersThenPads(alphabet, rest, n - 4);
    }
    if (forall i | 0 <= i < 4 :: s[i] in alphabet) && WellPadded(alphabet, rest) {
      var n :| |rest| - 2 <= n <= |rest| && 0 <= n && LettersThenPads(alphabet, rest, n);
      forall i | 4 <= i < |s| ensures if i < n + 4 then s[i] in alphabet else s[i] == '=' {
        assert s[i] == rest[i - 4];
      }
      assert LettersThenPads(alphabet, s, n + 4);
    }
  }

  lemma QuadThenRest(s: string)
    requires |s| > 4
    ensures DecodeQuads(s).Some? <==> (forall i | 0 <= i < 4 :: Value(s[i]).Some?) && DecodeQuads(s[4..]).Some?
  {
  }

  /** Quads decode exactly when they are well padded. */
  lemma {:induction false} QuadsDecodeIff(alphabet: string, s: string)
    requires HasValues(alphabet)
    ensures DecodeQuads(s).Some? <==> WellPadded(alphabet, s)
  {
    if s == "" {
      assert LettersThenPads(alphabet, s, 0);
    } else if |s| > 4 {
      MoreQuads(alphabet, s);
      QuadThenRest(s);
      QuadsDecodeIff(alphabet, s[4..]);
    } else if |s| == 4 {
      LastQuad(alphabet, s);
    }
  }

  lemma {:induction false} NewlinesGo(a: string, c: char, b: string)
    requires c == '\r' || c == '\n'
    ensures DropNewlines(a + ([c] + b)) == DropNewlines(a + b)
  {
    if a == "" {
      assert a + ([c] + b) == [c] + b && ([c] + b)[1..] == b && a + b == b;
    } else {
      assert (a + ([c] + b))[1..] == a[1..] + ([c] + b) && (a + b)[1..] == a[1..] + b;
      NewlinesGo(a[1..], c, b);
    }
  }

  lemma {:induction false} NoNewlinesStay(s: string)
    requires '\r' !in s && '\n' !in s
    ensures DropNewlines(s) == s
  {
    if s != "" {
      assert s == [s[0]] + s[1..];
      NoNewlinesStay(s[1..]);
    }
  }

  /**
   What the decoder accepts: line breaks count for nothing wherever they stand, and a text without any decodes exactly
   when it is whole quads of the alphabet, padded at the end only.
   */
  lemma DecodesIff(a: string, c: char, b: string)
    ensures c == '\r' || c == '\n' ==> DecodeString(a + ([c] + b)) == DecodeString(a + b)
    ensures '\r' !in a && '\n' !in a ==> (DecodeString(a).Some? <==> WellPadded(ALPHABET, a))
  {
    if c == '\r' || c == '\n' {
      NewlinesGo(a, c, b);
    }
    if '\r' !in a && '\n' !in a {
      NoNewlinesStay(a);
      TableHasValues();
      QuadsDecodeIff(ALPHABET, a);
    }
  }
}
