/**
 The relay's GitHub reference parser.  The four patterns are regular expressions with Go's leftmost-first
 meaning, run by a backtracking matcher; the parser built on them is refined to a plain stripping function.
 */
module RepoParser {
  import opened Wrappers

  // ---------- patterns ----------

  datatype Class = NotSlash | BareChar

  predicate InClass(k: Class, c: char) {
    match k
    case NotSlash => c != '/'
    case BareChar => 'a' <= c <= 'z' || 'A' <= c <= 'Z' || '0' <= c <= '9' || c == '_' || c == '.' || c == '-'
  }

  /** What the patterns are made of: a literal, `(?:text)?`, `[k]+` and `[k]+?`. */
  datatype Piece = Lit(text: string) | Opt(text: string) | Greedy(k: Class) | Lazy(k: Class)

  /** `^ before ( group ) after $` */
  datatype Pattern = Pattern(before: seq<Piece>, group: seq<Piece>, after: seq<Piece>)

  const GROUP: seq<Piece> := [Greedy(NotSlash), Lit("/"), Lazy(NotSlash)]
  const HTTPS: Pattern := Pattern([Lit("http"), Opt("s"), Lit("://github.com/")], GROUP, [Opt(".git"), Opt("/")])
  const SSH: Pattern := Pattern([Lit("git@github.com:")], GROUP, [Opt(".git")])
  const SHORT: Pattern := Pattern([Lit("github.com/")], GROUP, [Opt(".git"), Opt("/")])
  const BARE: Pattern := Pattern([], [Greedy(BareChar), Lit("/"), Greedy(BareChar)], [])

  /** How many characters from `i` on belong to the class. */
  function RunLength(k: Class, s: string, i: nat): (n: nat)
    requires i <= |s|
    ensures i + n <= |s| && (forall j | i <= j < i + n :: InClass(k, s[j]))
    ensures i + n < |s| ==> !InClass(k, s[i + n])
    decreases |s| - i
  {
    if i == |s| || !InClass(k, s[i]) then 0 else 1 + RunLength(k, s, i + 1)
  }

  predicate HasAt(s: string, i: nat, text: string) {
    i + |text| <= |s| && s[i..i + |text|] == text
  }

  /** Where a piece that starts at `i` can end, in the order a backtracking matcher tries the ends. */
  function Ends(p: Piece, s: string, i: nat): (ends: seq<nat>)
    requires i <= |s|
    ensures forall j | 0 <= j < |ends| :: i <= ends[j] <= |s|
  {
    match p
    case Lit(text) => if HasAt(s, i, text) then [i + |text|] else []
    case Opt(text) => (if HasAt(s, i, text) then [i + |text|] else []) + [i]
    case Greedy(k) => var n := RunLength(k, s, i); seq(n, j requires 0 <= j < n => i + n - j)
    case Lazy(k) => var n := RunLength(k, s, i); seq(n, j requires 0 <= j < n => i + 1 + j)
  }

  /** The first way for the pieces to match from `i` to the end of the text: where each piece ends. */
  function First(ps: seq<Piece>, s: string, i: nat): (cuts: Option<seq<nat>>)
    requires i <= |s|
    ensures cuts.Some? ==> |cuts.value| == |ps|
    ensures cuts.Some? ==> forall j | 0 <= j < |ps| :: cuts.value[j] <= |s|
    decreases |ps|, 1, 0
  {
    if ps == [] then (if i == |s| then Some([]) else None) else Try(Ends(ps[0], s, i), ps[1..], s, i)
  }

  function Try(ends: seq<nat>, ps: seq<Piece>, s: string, i: nat): (cuts: Option<seq<nat>>)
    requires forall j | 0 <= j < |ends| :: i <= ends[j] <= |s|
    ensures cuts.Some? ==> |cuts.value| == |ps| + 1
    ensures cuts.Some? ==> forall j | 0 <= j < |ps| + 1 :: cuts.value[j] <= |s|
    decreases |ps| + 1, 0, |ends|
  {
    if ends == [] then None
    else
      match First(ps, s, ends[0])
      case Some(rest) => Some([ends[0]] + rest)
      case None => Try(ends[1..], ps, s, i)
  }

  /** The text between the end of piece `b - 1` and the end of piece `g - 1`. */
  function Extract(cuts: seq<nat>, b: nat, g: nat, s: string): (text: Option<string>)
    requires b <= |cuts| && g <= |cuts| && forall j | 0 <= j < |cuts| :: cuts[j] <= |s|
  {
    var from, to := if b == 0 then 0 else cuts[b - 1], if g == 0 then 0 else cuts[g - 1];
    if from <= to then Some(s[from..to]) else None
  }

  /** `FindStringSubmatch(s)[1]`, when the pattern matches. */
  function Capture(p: Pattern, s: string): (group: Option<string>)
  {
    match First(p.before + p.group + p.after, s, 0)
    case None => None
    case Some(cuts) => Extract(cuts, |p.before|, |p.before| + |p.group|, s)
  }

  // ---------- the parser ----------

  /** `unicode.IsSpace` */
  predicate IsSpace(c: char) {
    || 9 <= c as int <= 13 || c as int in {0x20, 0x85, 0xA0, 0x1680, 0x2028, 0x2029, 0x202F, 0x205F, 0x3000}
    || 0x2000 <= c as int <= 0x200A
  }

  function TrimSpace(s: string): (t: string)
    ensures t != "" ==> !IsSpace(t[0]) && !IsSpace(t[|t| - 1])
    ensures s != "" && !IsSpace(s[0]) && !IsSpace(s[|s| - 1]) ==> t == s
  {
    if s == "" then ""
    else if IsSpace(s[0]) then TrimSpace(s[1..])
    else if IsSpace(s[|s| - 1]) then TrimSpace(s[..|s| - 1])
    else s
  }

  function ParseRepo(input: string): (repo: string)
  {
    var s := TrimSpace(input);
    if s == "" then ""
    else
      match Capture(HTTPS, s)
      case Some(r) => r
      case None =>
        match Capture(SSH, s)
        case Some(r) => r
        case None =>
          match Capture(SHORT, s)
          case Some(r) => r
          case None =>
            match Capture(BARE, s)
            case Some(r) => r
            case None => ""
  }

  // ---------- the specification ----------

  predicate EndsWith(s: string, tail: string) {
    |tail| <= |s| && s[|s| - |tail|..] == tail
  }

  function DropEnd(s: string, n: nat): string
    requires n <= |s|
  {
    s[..|s| - n]
  }

  /** One `.git` goes, if something remains. */
  function DropGit(name: string): string {
    if EndsWith(name, ".git") && |name| > 4 then DropEnd(name, 4) else name
  }

  /** What follows a known prefix: an owner, a slash, a name, perhaps `.git`, perhaps a closing slash. */
  function StripBody(body: string, slash: bool): (repo: Option<string>)
  {
    var k := RunLength(NotSlash, body, 0);
    if k == 0 || k == |body| then None
    else
      var rest := body[k + 1..];
      var name := DropSlash(rest, slash);
      if name == "" || '/' in name then None else Some(body[..k + 1] + DropGit(name))
  }

  function DropSlash(rest: string, slash: bool): string {
    if slash && EndsWith(rest, "/") then DropEnd(rest, 1) else rest
  }

  function StripAfter(s: string, prefix: string, slash: bool): (repo: Option<string>) {
    if prefix <= s then StripBody(s[|prefix|..], slash) else None
  }

  /** The bare alphabet, letter by letter. */
  const BARE_ALPHABET: string := CAPITALS + SMALL_LETTERS + "0123456789" + "_.-"
  const CAPITALS: string := "ABCDEFGHIJKLMNOPQRSTUVWXYZ"
  const SMALL_LETTERS: string := "abcdefghijklmnopqrstuvwxyz"

  /** A nonempty text over an alphabet. */
  predicate NameOver(alphabet: string, s: string) {
    s != "" && forall c <- s :: c in alphabet
  }

  predicate PairOver(alphabet: string, s: string) {
    exists k | 0 <= k < |s| :: s[k] == '/' && NameOver(alphabet, s[..k]) && NameOver(alphabet, s[k + 1..])
  }

  predicate BareName(s: string) {
    NameOver(BARE_ALPHABET, s)
  }

  predicate BareRepo(s: string) {
    PairOver(BARE_ALPHABET, s)
  }

  function Strip(input: string): (repo: string)
  {
    var s := TrimSpace(input);
    match StripAfter(s, "https://github.com/", true)
    case Some(r) => r
    case None =>
      match StripAfter(s, "http://github.com/", true)
      case Some(r) => r
      case None =>
        match StripAfter(s, "git@github.com:", false)
        case Some(r) => r
        case None =>
          match StripAfter(s, "github.com/", true)
          case Some(r) => r
          case None => if BareRepo(s) then s else ""
  }

  // ---------- the alphabets ----------

  lemma CapitalsAre(c: char)
    ensures c in CAPITALS <==> 'A' <= c <= 'Z'
  {
    if 'A' <= c <= 'Z' {
      assert CAPITALS[c as int - 65] == c;
    }
  }

  lemma SmallLettersAre(c: char)
    ensures c in SMALL_LETTERS <==> 'a' <= c <= 'z'
  {
    if 'a' <= c <= 'z' {
      assert SMALL_LETTERS[c as int - 97] == c;
    }
  }

  /** The pattern's character class is the bare alphabet, and no character more or less. */
  lemma BareCharIff(c: char)
    ensures InClass(BareChar, c) <==> c in BARE_ALPHABET
  {
    CapitalsAre(c);
    SmallLettersAre(c);
  }

  lemma AlphabetIsClass()
    ensures ClassIs(BareChar, BARE_ALPHABET)
  {
    forall c: char ensures InClass(BareChar, c) <==> c in BARE_ALPHABET {
      BareCharIff(c);
    }
  }

  ghost predicate ClassIs(k: Class, alphabet: string) {
    forall c: char :: InClass(k, c) <==> c in alphabet
  }

  /** Unicode's white space, character by character. */
  const SPACES: string :=
    "\t\n\U{0B}\U{0C}\r \U{85}\U{A0}\U{1680}" + WIDE_SPACES + "\U{2028}\U{2029}\U{202F}\U{205F}\U{3000}"
  const WIDE_SPACES: string :=
    "\U{2000}\U{2001}\U{2002}\U{2003}\U{2004}\U{2005}\U{2006}\U{2007}\U{2008}\U{2009}\U{200A}"

  lemma WideSpacesAre(c: char)
    ensures c in WIDE_SPACES <==> 0x2000 <= c as int <= 0x200A
  {
    if 0x2000 <= c as int <= 0x200A {
      assert WIDE_SPACES[c as int - 0x2000] == c;
    }
  }

  lemma IsSpaceIff(c: char)
    ensures IsSpace(c) <==> c in SPACES
  {
    WideSpacesAre(c);
  }

  predicate Spaces(s: string) {
    forall i | 0 <= i < |s| :: IsSpace(s[i])
  }

  lemma {:induction false} TrimFront(a: string, s: string)
    requires Spaces(a)
    ensures TrimSpace(a + s) == TrimSpace(s)
  {
    if a == "" {
      assert a + s == s;
    } else {
      assert (a + s)[1..] == a[1..] + s;
      TrimFront(a[1..], s);
    }
  }

  lemma {:induction false} TrimBack(s: string, b: string)
    requires Spaces(b)
    ensures TrimSpace(s + b) == TrimSpace(s)
    decreases |s| + |b|
  {
    var all := s + b;
    if b == "" {
      assert all == s;
    } else if s == "" {
      TrimFront(b, "");
      assert b + "" == b && all == b;
    } else if IsSpace(s[0]) {
      assert all[1..] == s[1..] + b;
      TrimBack(s[1..], b);
    } else {
      var n := |b| - 1;
      assert all[|all| - 1] == b[n] && all[..|all| - 1] == s + b[..n];
      TrimBack(s, b[..n]);
    }
  }

  /**
   Every text is white space, a core and white space, and trimming gives the core: its first and last characters
   belong to none of the white space there is.
   */
  lemma TrimSpaceIs(a: string, t: string, b: string)
    requires forall c <- a :: c in SPACES
    requires forall c <- b :: c in SPACES
    requires t != "" ==> t[0] !in SPACES && t[|t| - 1] !in SPACES
    ensures TrimSpace(a + (t + b)) == t
    ensures ParseRepo(a + (t + b)) == ParseRepo(t)
  {
    AllSpaces(a);
    AllSpaces(b);
    TrimFront(a, t + b);
    TrimBack(t, b);
    if t != "" {
      IsSpaceIff(t[0]);
      IsSpaceIff(t[|t| - 1]);
    }
    assert TrimSpace(t) == t;
  }

  lemma AllSpaces(a: string)
    requires forall c <- a :: c in SPACES
    ensures Spaces(a)
  {
    forall i | 0 <= i < |a| ensures IsSpace(a[i]) {
      IsSpaceIff(a[i]);
    }
  }

  // ---------- the matcher, piece by piece ----------

  /** Where a literal stands there is one way on. */
  lemma FirstLit(text: string, ps: seq<Piece>, s: string, i: nat)
    requires i <= |s|
    ensures First([Lit(text)] + ps, s, i)
         == if HasAt(s, i, text) && First(ps, s, i + |text|).Some?
            then Some([i + |text|] + First(ps, s, i + |text|).value) else None
  {
    var all := [Lit(text)] + ps;
    assert all[1..] == ps;
    TryFinds(Ends(Lit(text), s, i), ps, s, i, if HasAt(s, i, text) && First(ps, s, i + |text|).Some? then 0
                                             else |Ends(Lit(text), s, i)|);
  }

  lemma FirstOpt(text: string, ps: seq<Piece>, s: string, i: nat)
    requires i <= |s|
    ensures First([Opt(text)] + ps, s, i)
         == if HasAt(s, i, text) && First(ps, s, i + |text|).Some?
            then Some([i + |text|] + First(ps, s, i + |text|).value)
            else if First(ps, s, i).Some? then Some([i] + First(ps, s, i).value) else None
  {
    var all := [Opt(text)] + ps;
    assert all[1..] == ps;
    var ends := Ends(Opt(text), s, i);
    if HasAt(s, i, text) {
      TryFinds(ends, ps, s, i,
               if First(ps, s, i + |text|).Some? then 0 else if First(ps, s, i).Some? then 1 else 2);
    } else {
      TryFinds(ends, ps, s, i, if First(ps, s, i).Some? then 0 else 1);
    }
  }

  /** Trying the ends in order finds the first that lets the rest match. */
  lemma {:induction false} TryFinds(ends: seq<nat>, ps: seq<Piece>, s: string, i: nat, n: nat)
    requires forall j | 0 <= j < |ends| :: i <= ends[j] <= |s|
    requires n <= |ends| && forall j | 0 <= j < n :: First(ps, s, ends[j]).None?
    requires n < |ends| ==> First(ps, s, ends[n]).Some?
    ensures Try(ends, ps, s, i)
         == if n < |ends| then Some([ends[n]] + First(ps, s, ends[n]).value) else None
  {
    if n > 0 {
      TryFinds(ends[1..], ps, s, i, n - 1);
    }
  }

  /** What may follow the name: the optional pieces, each there or not. */
  function After(slash: bool): seq<Piece> {
    if slash then [Opt(".git"), Opt("/")] else [Opt(".git")]
  }

  predicate Closing(tail: string, slash: bool) {
    tail == "" || tail == ".git" || (slash && (tail == "/" || tail == ".git/"))
  }

  lemma SlashAccepts(s: string, i: nat)
    requires i <= |s|
    ensures First([Opt("/")], s, i).Some? <==> s[i..] == "" || s[i..] == "/"
  {
    assert [Opt("/")] == [Opt("/")] + [];
    FirstOpt("/", [], s, i);
    if i + 1 == |s| {
      assert s[i..i + 1] == s[i..];
    }
  }

  lemma AtPrefix(s: string, i: nat, text: string)
    requires i <= |s|
    ensures HasAt(s, i, text) <==> text <= s[i..]
    ensures HasAt(s, i, text) ==> s[i + |text|..] == s[i..][|text|..]
  {
    if i + |text| <= |s| {
      assert s[i..][..|text|] == s[i..i + |text|];
    }
  }

  lemma ClosingForms(tail: string, slash: bool)
    ensures Closing(tail, slash) <==>
      || tail == "" || (slash && tail == "/")
      || (".git" <= tail && (tail[4..] == "" || (slash && tail[4..] == "/")))
  {
    assert ".git" <= tail ==> tail == ".git" + tail[4..];
    assert ".git/" == ".git" + "/" && ".git" == ".git" + "";
  }

  lemma AfterAccepts(slash: bool, s: string, i: nat)
    requires i <= |s|
    ensures First(After(slash), s, i).Some? <==> Closing(s[i..], slash)
  {
    var rest: seq<Piece> := if slash then [Opt("/")] else [];
    assert After(slash) == [Opt(".git")] + rest;
    FirstOpt(".git", rest, s, i);
    EndAccepts(slash, rest, s, i);
    AtPrefix(s, i, ".git");
    if HasAt(s, i, ".git") {
      EndAccepts(slash, rest, s, i + 4);
    }
    ClosingForms(s[i..], slash);
  }

  lemma EndAccepts(slash: bool, rest: seq<Piece>, s: string, i: nat)
    requires i <= |s| && rest == if slash then [Opt("/")] else []
    ensures First(rest, s, i).Some? <==> s[i..] == "" || (slash && s[i..] == "/")
  {
    if slash {
      SlashAccepts(s, i);
    }
  }

  // ---------- the lazy name ----------

  /** A closing after a nonempty name is the one the specification strips. */
  lemma ClosingIsStripped(rest: string, slash: bool, e: nat)
    requires 1 <= e <= |rest| && Closing(rest[e..], slash) && '/' !in rest[..e]
    ensures DropSlash(rest, slash) != "" && '/' !in DropSlash(rest, slash)
    ensures |DropGit(DropSlash(rest, slash))| <= e
  {
    var tail, name := rest[e..], DropSlash(rest, slash);
    assert rest == rest[..e] + tail;
    assert rest[|rest| - 1] == if tail == "" then rest[e - 1] else tail[|tail| - 1];
    assert rest[e - 1] in rest[..e];
    if slash && (tail == "/" || tail == ".git/") {
      assert rest[|rest| - 1..] == "/";
      assert name == rest[..e] + tail[..|tail| - 1];
    } else {
      assert !EndsWith(rest, "/") by {
        assert rest[|rest| - 1..][0] == rest[|rest| - 1];
      }
      assert name == rest;
    }
    if |name| == e + 4 {
      assert name[|name| - 4..] == ".git";
    }
  }

  /** And the name the specification keeps is followed by a closing. */
  lemma StrippedIsClosing(rest: string, slash: bool)
    requires DropSlash(rest, slash) != "" && '/' !in DropSlash(rest, slash)
    ensures var e := |DropGit(DropSlash(rest, slash))|;
      1 <= e <= |rest| && '/' !in rest[..e] && Closing(rest[e..], slash)
    ensures rest[..|DropGit(DropSlash(rest, slash))|] == DropGit(DropSlash(rest, slash))
  {
    var name := DropSlash(rest, slash);
    var e := |DropGit(name)|;
    assert name == rest[..|name|] && DropGit(name) == rest[..e];
    assert rest[e..] == name[e..] + rest[|name|..];
  }

  lemma RunCovers(k: Class, s: string, i: nat, n: nat)
    requires i + n <= |s| && forall j | i <= j < i + n :: InClass(k, s[j])
    ensures n <= RunLength(k, s, i)
  {
  }

  predicate GoodName(name: string) {
    name != "" && '/' !in name
  }

  /** These pieces match to the end exactly on the closings. */
  ghost predicate Closes(ps: seq<Piece>, s: string, slash: bool) {
    forall i: nat {:trigger First(ps, s, i)} | i <= |s| :: First(ps, s, i).Some? <==> Closing(s[i..], slash)
  }

  lemma LazyEnd(s: string, q: nat, ps: seq<Piece>, slash: bool, rest: string, e: nat)
    requires q <= |s| && rest == s[q..] && Closes(ps, s, slash)
    requires 1 <= e <= RunLength(NotSlash, s, q) && First(ps, s, q + e).Some?
    ensures var name := DropSlash(rest, slash); GoodName(name) && |DropGit(name)| <= e
  {
    assert s[q + e..] == rest[e..];
    assert forall x | 0 <= x < e :: rest[..e][x] == s[q + x];
    ClosingIsStripped(rest, slash, e);
  }

  lemma LazyHit(s: string, q: nat, ps: seq<Piece>, slash: bool, rest: string, e: nat)
    requires q <= |s| && rest == s[q..] && Closes(ps, s, slash)
    requires 1 <= e <= |rest| && '/' !in rest[..e] && Closing(rest[e..], slash)
    ensures e <= RunLength(NotSlash, s, q) && First(ps, s, q + e).Some?
  {
    forall x | q <= x < q + e ensures InClass(NotSlash, s[x]) {
      assert s[x] == rest[..e][x - q];
    }
    RunCovers(NotSlash, s, q, e);
    assert s[q + e..] == rest[e..];
  }

  lemma FirstOf(piece: Piece, ps: seq<Piece>, s: string, i: nat)
    requires i <= |s|
    ensures First([piece] + ps, s, i) == Try(Ends(piece, s, i), ps, s, i)
  {
    assert ([piece] + ps)[1..] == ps;
  }

  /** The lazy name ends at the first place from which the closing pieces reach the end of the text. */
  lemma LazyFirst(s: string, q: nat, ps: seq<Piece>, slash: bool, rest: string, name: string)
    requires q <= |s| && rest == s[q..] && Closes(ps, s, slash) && name == DropSlash(rest, slash)
    ensures var cuts := First([Lazy(NotSlash)] + ps, s, q);
      if GoodName(name) then cuts.Some? && cuts.value[0] == q + |DropGit(name)| else cuts.None?
  {
    FirstOf(Lazy(NotSlash), ps, s, q);
    LazyTry(s, q, ps, slash, rest, name, Ends(Lazy(NotSlash), s, q));
  }

  lemma LazyTry(s: string, q: nat, ps: seq<Piece>, slash: bool, rest: string, name: string, ends: seq<nat>)
    requires q <= |s| && rest == s[q..] && Closes(ps, s, slash) && name == DropSlash(rest, slash)
    requires |ends| == RunLength(NotSlash, s, q) && forall j | 0 <= j < |ends| :: ends[j] == q + 1 + j
    ensures var cuts := Try(ends, ps, s, q);
      if GoodName(name) then cuts.Some? && cuts.value[0] == q + |DropGit(name)| else cuts.None?
  {
    forall j | 0 <= j < |ends| && First(ps, s, ends[j]).Some? ensures GoodName(name) && |DropGit(name)| <= 1 + j {
      LazyEnd(s, q, ps, slash, rest, 1 + j);
    }
    if GoodName(name) {
      StrippedIsClosing(rest, slash);
      LazyHit(s, q, ps, slash, rest, |DropGit(name)|);
      TryFirst(ends, ps, s, q, |DropGit(name)|);
    } else {
      TryFinds(ends, ps, s, q, |ends|);
    }
  }

  lemma TryFirst(ends: seq<nat>, ps: seq<Piece>, s: string, q: nat, e: nat)
    requires q + |ends| <= |s| && forall j | 0 <= j < |ends| :: ends[j] == q + 1 + j
    requires 1 <= e <= |ends| && First(ps, s, q + e).Some?
    requires forall j | 0 <= j < |ends| && First(ps, s, ends[j]).Some? :: e <= 1 + j
    ensures var cuts := Try(ends, ps, s, q); cuts.Some? && cuts.value[0] == q + e
  {
    TryFinds(ends, ps, s, q, e - 1);
  }

  // ---------- owner, slash, name ----------

  lemma RunShift(k: Class, s: string, i: nat)
    requires i <= |s|
    ensures RunLength(k, s, i) == RunLength(k, s[i..], 0)
  {
    var n, m := RunLength(k, s, i), RunLength(k, s[i..], 0);
    assert forall j | i <= j < i + m :: s[j] == s[i..][j - i];
    RunCovers(k, s, i, m);
    assert forall j | 0 <= j < n :: s[i..][j] == s[i + j];
    RunCovers(k, s[i..], 0, n);
  }

  lemma SlashAt(s: string, i: nat)
    requires i <= |s|
    ensures HasAt(s, i, "/") <==> i < |s| && s[i] == '/'
  {
    if i < |s| {
      assert s[i..i + 1] == [s[i]];
    }
  }

  /** The greedy owner cannot give characters back: only its full run is followed by a slash. */
  lemma OwnerFirst(k: Class, s: string, p: nat, ps: seq<Piece>, n: nat)
    requires p <= |s| && n == RunLength(k, s, p)
    ensures var cuts := First([Greedy(k)] + ([Lit("/")] + ps), s, p);
      if 0 < n && p + n < |s| && s[p + n] == '/' && First(ps, s, p + n + 1).Some?
      then cuts == Some([p + n] + ([p + n + 1] + First(ps, s, p + n + 1).value)) else cuts.None?
  {
    FirstOf(Greedy(k), [Lit("/")] + ps, s, p);
    OwnerTry(k, s, p, ps, n, Ends(Greedy(k), s, p));
  }

  lemma OwnerTry(k: Class, s: string, p: nat, ps: seq<Piece>, n: nat, ends: seq<nat>)
    requires p + n <= |s| && forall j | p <= j < p + n :: InClass(k, s[j])
    requires |ends| == n && forall j | 0 <= j < n :: ends[j] == p + n - j
    ensures var cuts := Try(ends, [Lit("/")] + ps, s, p);
      if 0 < n && p + n < |s| && s[p + n] == '/' && First(ps, s, p + n + 1).Some?
      then cuts == Some([p + n] + ([p + n + 1] + First(ps, s, p + n + 1).value)) else cuts.None?
  {
    var more := [Lit("/")] + ps;
    forall j | 0 <= j < n ensures First(more, s, ends[j]).Some? ==> j == 0 {
      FirstLit("/", ps, s, ends[j]);
      SlashAt(s, ends[j]);
    }
    FirstLit("/", ps, s, p + n);
    SlashAt(s, p + n);
    TryFinds(ends, more, s, p, if n > 0 && First(more, s, p + n).Some? then 0 else n);
  }

  lemma Pieces(ps: seq<Piece>)
    ensures GROUP + ps == [Greedy(NotSlash)] + ([Lit("/")] + ([Lazy(NotSlash)] + ps))
  {
  }

  /** The cuts of a group that starts at `p` and what it captures: owner, slash and name end at the first three. */
  predicate GroupCaptures(cuts: Option<seq<nat>>, s: string, p: nat, repo: Option<string>) {
    match repo
    case None => cuts.None?
    case Some(r) => cuts.Some? && |cuts.value| >= 3 && p <= cuts.value[2] <= |s| && s[p..cuts.value[2]] == r
  }

  /** After a prefix that ends at `p`, the group captures exactly what the specification keeps. */
  lemma GroupFirst(s: string, p: nat, ps: seq<Piece>, slash: bool, body: string)
    requires p <= |s| && body == s[p..] && Closes(ps, s, slash)
    ensures GroupCaptures(First(GROUP + ps, s, p), s, p, StripBody(body, slash))
  {
    var n := RunLength(NotSlash, s, p);
    Pieces(ps);
    OwnerFirst(NotSlash, s, p, [Lazy(NotSlash)] + ps, n);
    GroupThenName(s, p, n, ps, slash, body, First(GROUP + ps, s, p));
  }

  lemma GroupThenName(s: string, p: nat, n: nat, ps: seq<Piece>, slash: bool, body: string, cuts: Option<seq<nat>>)
    requires p <= |s| && body == s[p..] && Closes(ps, s, slash) && n == RunLength(NotSlash, s, p)
    requires
      if 0 < n && p + n < |s| && s[p + n] == '/' && First([Lazy(NotSlash)] + ps, s, p + n + 1).Some?
      then cuts == Some([p + n] + ([p + n + 1] + First([Lazy(NotSlash)] + ps, s, p + n + 1).value)) else cuts.None?
    ensures GroupCaptures(cuts, s, p, StripBody(body, slash))
  {
    RunShift(NotSlash, s, p);
    if 0 < n && p + n < |s| {
      var name := First([Lazy(NotSlash)] + ps, s, p + n + 1);
      NameFirst(s, p, n, ps, slash, body, name);
      assert s[p + n] == '/';
      ThirdCut(s, p, p + n, p + n + 1, name, cuts, StripBody(body, slash));
    }
  }

  lemma ThirdCut(s: string, p: nat, a: nat, b: nat, name: Option<seq<nat>>, cuts: Option<seq<nat>>,
                 repo: Option<string>)
    requires NameCaptures(name, s, p, repo)
    requires if name.Some? then cuts == Some([a] + ([b] + name.value)) else cuts.None?
    ensures GroupCaptures(cuts, s, p, repo)
  {
  }

  predicate NameCaptures(cuts: Option<seq<nat>>, s: string, p: nat, repo: Option<string>) {
    match repo
    case None => cuts.None?
    case Some(r) => cuts.Some? && |cuts.value| >= 1 && p <= cuts.value[0] <= |s| && s[p..cuts.value[0]] == r
  }

  lemma StripBodyAt(body: string, slash: bool, n: nat, rest: string, name: string)
    requires 0 < n < |body| && n == RunLength(NotSlash, body, 0)
    requires rest == body[n + 1..] && name == DropSlash(rest, slash)
    ensures StripBody(body, slash) == if GoodName(name) then Some(body[..n + 1] + DropGit(name)) else None
  {
  }

  lemma NameFirst(s: string, p: nat, n: nat, ps: seq<Piece>, slash: bool, body: string, cuts: Option<seq<nat>>)
    requires p + n < |s| && 0 < n && body == s[p..] && Closes(ps, s, slash) && n == RunLength(NotSlash, body, 0)
    requires cuts == First([Lazy(NotSlash)] + ps, s, p + n + 1)
    ensures NameCaptures(cuts, s, p, StripBody(body, slash))
  {
    var rest := body[n + 1..];
    assert s[p + n + 1..] == rest;
    LazyFirst(s, p + n + 1, ps, slash, rest, DropSlash(rest, slash));
    NameStripped(s, p, n, slash, body, rest, DropSlash(rest, slash), cuts);
  }

  lemma NameStripped(s: string, p: nat, n: nat, slash: bool, body: string, rest: string, name: string,
                     cuts: Option<seq<nat>>)
    requires p + n < |s| && 0 < n && body == s[p..] && n == RunLength(NotSlash, body, 0)
    requires rest == body[n + 1..] && name == DropSlash(rest, slash)
    requires cuts.Some? ==> |cuts.value| >= 1
    requires if GoodName(name) then cuts.Some? && cuts.value[0] == p + n + 1 + |DropGit(name)| else cuts.None?
    ensures NameCaptures(cuts, s, p, StripBody(body, slash))
  {
    StripBodyAt(body, slash, n, rest, name);
    NameKept(s, p, n, slash, body, rest, name, cuts);
  }

  lemma NameKept(s: string, p: nat, n: nat, slash: bool, body: string, rest: string, name: string,
                 cuts: Option<seq<nat>>)
    requires p + n < |s| && body == s[p..] && rest == body[n + 1..] && name == DropSlash(rest, slash)
    requires cuts.Some? ==> |cuts.value| >= 1
    requires if GoodName(name) then cuts.Some? && cuts.value[0] == p + n + 1 + |DropGit(name)| else cuts.None?
    ensures NameCaptures(cuts, s, p, if GoodName(name) then Some(body[..n + 1] + DropGit(name)) else None)
  {
    if GoodName(name) {
      StrippedIsClosing(rest, slash);
      KeptText(s, p, n, body, rest, |DropGit(name)|);
    }
  }

  lemma KeptText(s: string, p: nat, n: nat, body: string, rest: string, e: nat)
    requires p + n < |s| && body == s[p..] && rest == body[n + 1..] && e <= |rest|
    ensures s[p..p + n + 1 + e] == body[..n + 1] + rest[..e]
  {
  }

  // ---------- whole patterns ----------

  lemma AfterCloses(s: string, slash: bool)
    ensures Closes(After(slash), s, slash)
  {
    forall i: nat | i <= |s| ensures First(After(slash), s, i).Some? <==> Closing(s[i..], slash) {
      AfterAccepts(slash, s, i);
    }
  }

  /** The group and the closing after a prefix that ends at `p`. */
  function Rest(slash: bool): seq<Piece> {
    GROUP + After(slash)
  }

  lemma RestFirst(s: string, p: nat, slash: bool)
    requires p <= |s|
    ensures GroupCaptures(First(Rest(slash), s, p), s, p, StripBody(s[p..], slash))
  {
    AfterCloses(s, slash);
    GroupFirst(s, p, After(slash), slash, s[p..]);
  }

  lemma PrefixAt(s: string, text: string)
    ensures HasAt(s, 0, text) <==> text <= s
  {
  }

  /** Behind the cuts of a prefix, the group's third cut ends the captured text. */
  lemma ExtractGroup(front: seq<nat>, rest: seq<nat>, s: string, p: nat)
    requires front != [] && front[|front| - 1] == p && |rest| >= 3 && p <= rest[2] <= |s|
    requires forall j | 0 <= j < |front + rest| :: (front + rest)[j] <= |s|
    ensures Extract(front + rest, |front|, |front| + 3, s) == Some(s[p..rest[2]])
  {
  }

  /** A pattern of one piece, the group and a closing captures what the group behind that piece does. */
  lemma CaptureBehind(pattern: Pattern, s: string, p: nat, rest: Option<seq<nat>>, repo: Option<string>)
    requires |pattern.before| == 1 && |pattern.group| == 3 && GroupCaptures(rest, s, p, repo)
    requires First(pattern.before + pattern.group + pattern.after, s, 0)
          == match rest case Some(cuts) => Some([p] + cuts) case None => None
    ensures Capture(pattern, s) == repo
  {
    if rest.Some? {
      ExtractGroup([p], rest.value, s, p);
    }
  }

  lemma CaptureAfter(prefix: string, slash: bool, s: string)
    ensures Capture(Pattern([Lit(prefix)], GROUP, After(slash)), s) == StripAfter(s, prefix, slash)
  {
    assert [Lit(prefix)] + GROUP + After(slash) == [Lit(prefix)] + Rest(slash);
    FirstLit(prefix, Rest(slash), s, 0);
    PrefixAt(s, prefix);
    if prefix <= s {
      RestFirst(s, |prefix|, slash);
      CaptureBehind(Pattern([Lit(prefix)], GROUP, After(slash)), s, |prefix|, First(Rest(slash), s, |prefix|),
                    StripBody(s[|prefix|..], slash));
    }
  }

  lemma HttpsPieces()
    ensures HTTPS.before + HTTPS.group + HTTPS.after
         == [Lit("http")] + ([Opt("s")] + ([Lit("://github.com/")] + Rest(true)))
  {
  }

  lemma HasParts(s: string, i: nat, a: string, b: string)
    ensures HasAt(s, i, a + b) <==> HasAt(s, i, a) && HasAt(s, i + |a|, b)
  {
    if i + |a| + |b| <= |s| {
      var whole := s[i..i + |a + b|];
      assert whole == s[i..i + |a|] + s[i + |a|..i + |a| + |b|];
      assert whole[..|a|] == s[i..i + |a|] && whole[|a|..] == s[i + |a|..i + |a| + |b|];
    }
  }

  lemma OneStart(s: string, i: nat, a: string, b: string)
    requires a != "" && b != "" && a[0] != b[0] && HasAt(s, i, a)
    ensures !HasAt(s, i, b)
  {
    StartChar(s, i, a);
    StartChar(s, i, b);
  }

  lemma StartChar(s: string, i: nat, t: string)
    ensures HasAt(s, i, t) && t != "" ==> i < |s| && s[i] == t[0]
  {
    if HasAt(s, i, t) && t != "" {
      assert s[i..i + |t|][0] == s[i];
    }
  }

  lemma HttpsPrefixes(s: string)
    ensures "https://github.com/" <= s <==> HasAt(s, 0, "http") && HasAt(s, 4, "s") && HasAt(s, 5, "://github.com/")
    ensures "http://github.com/" <= s <==> HasAt(s, 0, "http") && HasAt(s, 4, "://github.com/")
  {
    assert "https://github.com/" == "http" + ("s" + "://github.com/");
    assert "http://github.com/" == "http" + "://github.com/";
    TwoParts(s, "http", "s" + "://github.com/");
    HasParts(s, 4, "s", "://github.com/");
    TwoParts(s, "http", "://github.com/");
  }

  lemma TwoParts(s: string, a: string, b: string)
    ensures a + b <= s <==> HasAt(s, 0, a) && HasAt(s, |a|, b)
  {
    PrefixAt(s, a + b);
    HasParts(s, 0, a, b);
  }

  /** From just after `http`: the optional `s`, the separator and the group. */
  lemma SchemeFirst(s: string)
    requires HasAt(s, 0, "http")
    ensures var cuts := First([Opt("s")] + ([Lit("://github.com/")] + Rest(true)), s, 4);
      if HasAt(s, 4, "s") && HasAt(s, 5, "://github.com/") then
        var r := First(Rest(true), s, 19);
        if r.Some? then cuts == Some([5] + ([19] + r.value)) else cuts.None?
      else if HasAt(s, 4, "://github.com/") then
        var r := First(Rest(true), s, 18);
        if r.Some? then cuts == Some([4] + ([18] + r.value)) else cuts.None?
      else cuts.None?
  {
    var tail := [Lit("://github.com/")] + Rest(true);
    FirstOpt("s", tail, s, 4);
    FirstLit("://github.com/", Rest(true), s, 4);
    if HasAt(s, 4, "s") {
      OneStart(s, 4, "s", "://github.com/");
      FirstLit("://github.com/", Rest(true), s, 5);
    }
  }

  lemma CaptureHttps(s: string)
    ensures Capture(HTTPS, s) == match StripAfter(s, "https://github.com/", true)
                                 case Some(r) => Some(r)
                                 case None => StripAfter(s, "http://github.com/", true)
  {
    var tail := [Opt("s")] + ([Lit("://github.com/")] + Rest(true));
    HttpsPieces();
    HttpsPrefixes(s);
    FirstLit("http", tail, s, 0);
    if "https://github.com/" <= s {
      SchemeFirst(s);
      RestFirst(s, 19, true);
      OneStart(s, 4, "s", "://github.com/");
      SchemeCaptured(s, 19, 5, First([Lit("http")] + tail, s, 0), First(Rest(true), s, 19));
    } else if "http://github.com/" <= s {
      SchemeFirst(s);
      RestFirst(s, 18, true);
      SchemeCaptured(s, 18, 4, First([Lit("http")] + tail, s, 0), First(Rest(true), s, 18));
    } else if HasAt(s, 0, "http") {
      SchemeFirst(s);
    }
  }

  lemma SchemeCaptured(s: string, p: nat, x: nat, cuts: Option<seq<nat>>, rest: Option<seq<nat>>)
    requires p <= |s| && GroupCaptures(rest, s, p, StripBody(s[p..], true))
    requires if rest.Some? then cuts == Some([4] + ([x] + ([p] + rest.value))) else cuts.None?
    requires cuts == First([Lit("http")] + ([Opt("s")] + ([Lit("://github.com/")] + Rest(true))), s, 0)
    ensures Capture(HTTPS, s) == StripBody(s[p..], true)
  {
    HttpsPieces();
    ThreeBefore(HTTPS, s, x, p, rest, StripBody(s[p..], true));
  }

  lemma ThreeBefore(pattern: Pattern, s: string, x: nat, p: nat, rest: Option<seq<nat>>, repo: Option<string>)
    requires |pattern.before| == 3 && |pattern.group| == 3 && GroupCaptures(rest, s, p, repo)
    requires First(pattern.before + pattern.group + pattern.after, s, 0)
          == match rest case Some(cuts) => Some([4] + ([x] + ([p] + cuts))) case None => None
    ensures Capture(pattern, s) == repo
  {
    if rest.Some? {
      assert [4] + ([x] + ([p] + rest.value)) == [4, x, p] + rest.value;
      ExtractGroup([4, x, p], rest.value, s, p);
    }
  }

  lemma GreedyToEnd(k: Class, s: string, i: nat)
    requires i <= |s|
    ensures var cuts := First([Greedy(k)], s, i);
      if i < |s| && RunLength(k, s, i) == |s| - i then cuts == Some([|s|]) else cuts.None?
  {
    var ends := Ends(Greedy(k), s, i);
    assert [Greedy(k)] == [Greedy(k)] + [];
    FirstOf(Greedy(k), [], s, i);
    assert forall j | 0 <= j < |ends| :: First([], s, ends[j]).Some? <==> ends[j] == |s|;
    assert [|s|] + [] == [|s|];
    TryFinds(ends, [], s, i, if i < |s| && RunLength(k, s, i) == |s| - i then 0 else |ends|);
  }

  /** A pair over a class without the slash is a run, a slash and a run. */
  lemma PairRuns(k: Class, alphabet: string, s: string)
    requires ClassIs(k, alphabet) && !InClass(k, '/')
    ensures var n := RunLength(k, s, 0);
      PairOver(alphabet, s) <==> 0 < n && n + 1 < |s| && s[n] == '/' && RunLength(k, s, n + 1) == |s| - n - 1
  {
    if PairOver(alphabet, s) {
      var i :| 0 <= i < |s| && s[i] == '/' && NameOver(alphabet, s[..i]) && NameOver(alphabet, s[i + 1..]);
      PairIsRuns(k, alphabet, s, i, s[..i], s[i + 1..]);
    }
    RunsArePair(k, alphabet, s, RunLength(k, s, 0));
  }

  lemma PairIsRuns(k: Class, alphabet: string, s: string, i: nat, a: string, b: string)
    requires ClassIs(k, alphabet) && !InClass(k, '/')
    requires i < |s| && s[i] == '/' && a == s[..i] && b == s[i + 1..] && NameOver(alphabet, a) && NameOver(alphabet, b)
    ensures 0 < i && RunLength(k, s, 0) == i && RunLength(k, s, i + 1) == |s| - i - 1 > 0
  {
    assert s[..i] == s[0..0 + i] && s[i + 1..] == s[i + 1..i + 1 + |b|];
    NameRun(k, alphabet, s, 0, i, a);
    NameRun(k, alphabet, s, i + 1, |b|, b);
  }

  lemma RunsArePair(k: Class, alphabet: string, s: string, n: nat)
    requires ClassIs(k, alphabet) && n == RunLength(k, s, 0)
    ensures 0 < n && n + 1 < |s| && s[n] == '/' && RunLength(k, s, n + 1) == |s| - n - 1 ==> PairOver(alphabet, s)
  {
    if 0 < n && n + 1 < |s| && s[n] == '/' && RunLength(k, s, n + 1) == |s| - n - 1 {
      RunIsName(k, alphabet, s, 0, n);
      RunIsName(k, alphabet, s, n + 1, |s|);
      assert s[0..n] == s[..n] && s[n + 1..|s|] == s[n + 1..];
    }
  }

  lemma RunIsName(k: Class, alphabet: string, s: string, i: nat, j: nat)
    requires ClassIs(k, alphabet) && i < j <= |s| && forall x | i <= x < j :: InClass(k, s[x])
    ensures NameOver(alphabet, s[i..j])
  {
  }

  lemma NameRun(k: Class, alphabet: string, s: string, i: nat, n: nat, name: string)
    requires ClassIs(k, alphabet) && !InClass(k, '/')
    requires i + n <= |s| && name == s[i..i + n] && NameOver(alphabet, name) && (i + n < |s| ==> s[i + n] == '/')
    ensures RunLength(k, s, i) == n
  {
    forall j | i <= j < i + n ensures InClass(k, s[j]) {
      assert s[j] == name[j - i];
    }
    RunCovers(k, s, i, n);
  }

  function PairPattern(k: Class): Pattern {
    Pattern([], [Greedy(k), Lit("/"), Greedy(k)], [])
  }

  lemma CaptureBare(s: string)
    ensures Capture(BARE, s) == if BareRepo(s) then Some(s) else None
  {
    AlphabetIsClass();
    BareIsPair();
    CapturePair(BareChar, BARE_ALPHABET, s);
  }

  lemma BareIsPair()
    ensures BARE == PairPattern(BareChar) && !InClass(BareChar, '/')
  {
  }

  lemma PairFirst(k: Class, s: string, n: nat)
    requires n == RunLength(k, s, 0)
    ensures First([Greedy(k), Lit("/"), Greedy(k)], s, 0)
         == if 0 < n && n + 1 < |s| && s[n] == '/' && RunLength(k, s, n + 1) == |s| - n - 1
            then Some([n, n + 1, |s|]) else None
  {
    assert [Greedy(k), Lit("/"), Greedy(k)] == [Greedy(k)] + ([Lit("/")] + [Greedy(k)]);
    OwnerFirst(k, s, 0, [Greedy(k)], n);
    if n < |s| {
      GreedyToEnd(k, s, n + 1);
    }
    assert [n] + ([n + 1] + [|s|]) == [n, n + 1, |s|];
  }

  lemma CapturePair(k: Class, alphabet: string, s: string)
    requires ClassIs(k, alphabet) && !InClass(k, '/')
    ensures Capture(PairPattern(k), s) == if PairOver(alphabet, s) then Some(s) else None
  {
    var p := PairPattern(k);
    assert p.before + p.group + p.after == [Greedy(k), Lit("/"), Greedy(k)];
    PairFirst(k, s, RunLength(k, s, 0));
    PairRuns(k, alphabet, s);
    assert s[0..|s|] == s;
  }

  // ---------- the theorems ----------

  /** For every string, the patterns with their first-match meaning do exactly what the stripping function says. */
  lemma ParseRepoRefinesStrip(input: string)
    ensures ParseRepo(input) == Strip(input)
  {
    var s := TrimSpace(input);
    CaptureHttps(s);
    assert SSH.after == After(false) && SHORT.after == After(true);
    CaptureAfter("git@github.com:", false, s);
    CaptureAfter("github.com/", true, s);
    CaptureBare(s);
  }

  /** Exactly one slash, with something on both sides. */
  predicate OneSlash(r: string) {
    exists k | 0 < k < |r| - 1 :: r[k] == '/' && '/' !in r[..k] && '/' !in r[k + 1..]
  }

  lemma PairHasOneSlash(a: string, b: string)
    requires GoodName(a) && GoodName(b)
    ensures OneSlash(a + ("/" + b))
  {
    var r := a + ("/" + b);
    assert r[..|a|] == a && r[|a| + 1..] == b && r[|a|] == '/';
  }

  lemma OwnerThenSlash(body: string, k: nat, name: string)
    requires k < |body| && body[k] == '/'
    ensures body[..k + 1] + name == body[..k] + ("/" + name)
  {
  }

  lemma StripBodyShape(body: string, slash: bool)
    ensures var r := StripBody(body, slash); r.Some? ==> OneSlash(r.value)
  {
    var k := RunLength(NotSlash, body, 0);
    if 0 < k < |body| {
      var rest := body[k + 1..];
      var name := DropSlash(rest, slash);
      StripBodyAt(body, slash, k, rest, name);
      if GoodName(name) {
        StrippedIsClosing(rest, slash);
        OwnerThenSlash(body, k, DropGit(name));
        PairHasOneSlash(body[..k], DropGit(name));
      }
    }
  }

  /** Whatever the parser accepts is an owner and a name. */
  lemma ParsedShape(input: string)
    ensures ParseRepo(input) == "" || OneSlash(ParseRepo(input))
  {
    ParseRepoRefinesStrip(input);
    var s := TrimSpace(input);
    StripAfterShape(s, "https://github.com/", true);
    StripAfterShape(s, "http://github.com/", true);
    StripAfterShape(s, "git@github.com:", false);
    StripAfterShape(s, "github.com/", true);
    BareShape(s);
  }

  lemma StripAfterShape(s: string, prefix: string, slash: bool)
    ensures var r := StripAfter(s, prefix, slash); r.Some? ==> OneSlash(r.value)
  {
    if prefix <= s {
      StripBodyShape(s[|prefix|..], slash);
    }
  }

  lemma BareShape(s: string)
    ensures BareRepo(s) ==> OneSlash(s)
  {
    BareCharIff('/');
    PairShape(BARE_ALPHABET, s);
  }

  lemma PairShape(alphabet: string, s: string)
    requires '/' !in alphabet
    ensures PairOver(alphabet, s) ==> OneSlash(s)
  {
    if PairOver(alphabet, s) {
      var k :| 0 <= k < |s| && s[k] == '/' && NameOver(alphabet, s[..k]) && NameOver(alphabet, s[k + 1..]);
      assert OneSlash(s);
    }
  }
}
