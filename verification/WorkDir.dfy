/** The strings the bridge computes from a repository name: the work directory and the clone URL. */
module WorkDirs {
  import opened Wrappers
  import opened RepoParser

  const BASE: string := "/root/dev"

  // ---------- paths ----------

  /** `strings.Split(s, "/")` */
  function SplitSlash(s: string): (parts: seq<string>)
    ensures parts != []
  {
    if s == "" then [""]
    else
      var rest := SplitSlash(s[1..]);
      if s[0] == '/' then [""] + rest else [[s[0]] + rest[0]] + rest[1..]
  }

  /** The elements of a rooted path after `filepath.Clean`: empty ones and dots go, `..` takes one back. */
  function CleanOnto(stack: seq<string>, parts: seq<string>): seq<string>
    decreases |parts|
  {
    if parts == [] then stack
    else if parts[0] == "" || parts[0] == "." then CleanOnto(stack, parts[1..])
    else if parts[0] == ".." then CleanOnto(if stack == [] then [] else stack[..|stack| - 1], parts[1..])
    else CleanOnto(stack + [parts[0]], parts[1..])
  }

  function Rooted(elems: seq<string>): string {
    if elems == [] then "" else "/" + elems[0] + Rooted(elems[1..])
  }

  function Clean(path: string): string {
    var elems := CleanOnto([], SplitSlash(path));
    if elems == [] then "/" else Rooted(elems)
  }

  /** `filepath.Join(base, name)` for a rooted base. */
  function Join(base: string, name: string): string {
    Clean(if name == "" then base else base + "/" + name)
  }

  /** `strings.TrimSuffix(name, ".git")` */
  function TrimGit(name: string): string {
    if EndsWith(name, ".git") then DropEnd(name, 4) else name
  }

  /** The part after the last slash. */
  function NameOf(repo: string): string {
    var parts := SplitSlash(repo);
    parts[|parts| - 1]
  }

  /** `getWorkDir` */
  function WorkDir(repo: string): string {
    if repo == "" then BASE else Join(BASE, TrimGit(NameOf(repo)))
  }

  /** `ensureRepo`'s choice of URL. */
  function CloneUrl(repo: string): string {
    if !("http" <= repo) && !("git@" <= repo) then "https://github.com/" + repo else repo
  }

  // ---------- spellings ----------

  datatype Form = Https | Http | Ssh | Short | Bare

  function Prefix(f: Form): string {
    match f
    case Https => "https://github.com/"
    case Http => "http://github.com/"
    case Ssh => "git@github.com:"
    case Short => "github.com/"
    case Bare => ""
  }

  /** The URL forms also allow a closing slash. */
  predicate MayClose(f: Form) {
    f.Https? || f.Http? || f.Short?
  }

  /** What follows the owner's slash in a spelling. */
  function NamePart(f: Form, repo: string, git: bool, close: bool): string {
    repo + (if git then ".git" else "") + (if close && MayClose(f) then "/" else "")
  }

  function Spelling(f: Form, owner: string, repo: string, git: bool, close: bool): string {
    Prefix(f) + (owner + ("/" + NamePart(f, repo, git, close)))
  }

  // ---------- the directory of a plain name ----------

  lemma {:induction false} SplitAt(a: string, rest: string)
    requires '/' !in a
    ensures SplitSlash(a + ("/" + rest)) == [a] + SplitSlash(rest)
  {
    var s := a + ("/" + rest);
    if a == "" {
      assert s[0] == '/' && s[1..] == rest;
    } else {
      assert s[0] == a[0] && s[1..] == a[1..] + ("/" + rest);
      SplitAt(a[1..], rest);
      assert [a[0]] + a[1..] == a;
    }
  }

  lemma {:induction false} SplitPlain(a: string)
    requires '/' !in a
    ensures SplitSlash(a) == [a]
  {
    if a != "" {
      SplitPlain(a[1..]);
      assert [a[0]] + a[1..] == a && [a[1..]][1..] == [];
    }
  }

  /** Where a name without slashes leads: dots stay at the base or go above it, anything else goes below. */
  function DirOf(name: string): string {
    if name == "" || name == "." then BASE
    else if name == ".." then "/root"
    else BASE + "/" + name
  }

  lemma Push(stack: seq<string>, part: string, tail: seq<string>)
    requires part != "." && part != ".."
    ensures CleanOnto(stack, [part] + tail) == CleanOnto(if part == "" then stack else stack + [part], tail)
  {
    assert ([part] + tail)[1..] == tail;
  }

  lemma CleanBase(tail: seq<string>)
    ensures CleanOnto([], ["", "root", "dev"] + tail) == CleanOnto(["root", "dev"], tail)
  {
    assert ["", "root", "dev"] + tail == [""] + (["root"] + (["dev"] + tail));
    Push([], "", ["root"] + (["dev"] + tail));
    Push([], "root", ["dev"] + tail);
    assert [] + ["root"] == ["root"];
    Push(["root"], "dev", tail);
    assert ["root"] + ["dev"] == ["root", "dev"];
  }

  lemma RootedTwo(a: string, b: string)
    ensures Rooted([a, b]) == "/" + a + ("/" + b)
  {
    assert [a, b][1..] == [b] && [b][1..] == [];
    assert Rooted([b]) == "/" + b + Rooted([]);
    assert "/" + b + "" == "/" + b;
  }

  lemma SplitBase()
    ensures SplitSlash(BASE) == ["", "root", "dev"]
  {
    assert BASE == "" + ("/" + ("root" + ("/" + "dev")));
    SplitPlain("dev");
    SplitAt("root", "dev");
    SplitAt("", "root" + ("/" + "dev"));
  }

  lemma SplitUnderBase(name: string)
    requires '/' !in name
    ensures SplitSlash(BASE + "/" + name) == ["", "root", "dev"] + [name]
  {
    assert BASE + "/" + name == "" + ("/" + ("root" + ("/" + ("dev" + ("/" + name)))));
    SplitPlain(name);
    SplitAt("dev", name);
    SplitAt("root", "dev" + ("/" + name));
    SplitAt("", "root" + ("/" + ("dev" + ("/" + name))));
  }

  lemma JoinPlain(name: string)
    requires '/' !in name
    ensures Join(BASE, name) == DirOf(name)
  {
    if name == "" {
      SplitBase();
      CleanBase([]);
      assert ["", "root", "dev"] + [] == ["", "root", "dev"];
      RootedTwo("root", "dev");
      assert "/" + "root" + ("/" + "dev") == BASE;
    } else {
      SplitUnderBase(name);
      CleanBase([name]);
      CleanLast(name);
    }
  }

  lemma CleanLast(name: string)
    requires name != "" && '/' !in name
    ensures var elems := CleanOnto(["root", "dev"], [name]);
      elems != [] && Rooted(elems) == DirOf(name)
  {
    assert [name][1..] == [];
    RootedTwo("root", "dev");
    if name == ".." {
      assert ["root", "dev"][..1] == ["root"] && ["root"][1..] == [];
      assert "/" + "root" + "" == "/root";
    } else if name != "." {
      var three := ["root", "dev"] + [name];
      assert three[1..] == ["dev", name];
      RootedTwo("dev", name);
      assert "/" + "root" + ("/" + "dev" + ("/" + name)) == "/root/dev/" + name;
    }
  }

  lemma WorkDirOf(owner: string, name: string)
    requires '/' !in owner && '/' !in name
    ensures WorkDir(owner + "/" + name) == DirOf(TrimGit(name))
  {
    assert owner + "/" + name == owner + ("/" + name);
    SplitAt(owner, name);
    SplitPlain(name);
    JoinPlain(TrimGit(name));
  }

  /** A directory part is empty or ends in a slash. */
  predicate IsFront(front: string) {
    front == "" || front[|front| - 1] == '/'
  }

  lemma {:induction false} LastPart(front: string, last: string)
    requires IsFront(front) && '/' !in last
    ensures NameOf(front + last) == last
    ensures front != "" ==> |SplitSlash(front + last)| >= 2
  {
    if front == "" {
      assert front + last == last;
      SplitPlain(last);
    } else {
      assert (front + last)[1..] == front[1..] + last;
      LastPart(front[1..], last);
    }
  }

  /** For every text: only what follows its last slash counts, and without a repository it is the base directory. */
  lemma WorkDirIs(front: string, last: string)
    requires IsFront(front) && '/' !in last
    ensures WorkDir(front + last) == DirOf(TrimGit(last))
    ensures WorkDir("") == "/root/dev"
  {
    LastPart(front, last);
    JoinPlain(TrimGit(last));
  }

  // ---------- parsing a spelling ----------

  lemma StripBodyOf(owner: string, rest: string, slash: bool)
    requires owner != "" && '/' !in owner
    ensures var name := DropSlash(rest, slash);
      StripBody(owner + ("/" + rest), slash)
      == if GoodName(name) then Some(owner + ("/" + DropGit(name))) else None
  {
    var body := owner + ("/" + rest);
    assert forall j | 0 <= j < |owner| :: body[j] == owner[j];
    RunCovers(NotSlash, body, 0, |owner|);
    assert body[|owner|] == '/';
    assert RunLength(NotSlash, body, 0) == |owner|;
    assert body[|owner| + 1..] == rest && body[..|owner| + 1] == owner + "/";
    assert forall t: string :: owner + "/" + t == owner + ("/" + t);
  }

  lemma BareHasNoSlash(name: string)
    requires BareName(name)
    ensures '/' !in name && !IsSpace(name[0]) && !IsSpace(name[|name| - 1])
  {
    BareCharIff('/');
    BareNameAt(name, 0);
    BareNameAt(name, |name| - 1);
    NoneOver(BARE_ALPHABET, name, '/');
  }

  lemma NoneOver(alphabet: string, s: string, c: char)
    requires NameOver(alphabet, s) && c !in alphabet
    ensures c !in s
  {
  }

  lemma BareNameAt(t: string, j: int)
    ensures BareName(t) && 0 <= j < |t| ==> InClass(BareChar, t[j])
  {
    if BareName(t) && 0 <= j < |t| {
      OverAt(BARE_ALPHABET, t, j);
      BareCharIff(t[j]);
    }
  }

  lemma OverAt(alphabet: string, s: string, j: nat)
    requires NameOver(alphabet, s) && j < |s|
    ensures s[j] in alphabet
  {
  }

  lemma PrefixClash(s: string, a: string, b: string, i: nat)
    requires a <= s && i < |a| && i < |b| && a[i] != b[i]
    ensures !(b <= s)
  {
    assert s[i] == a[i];
  }

  lemma NoClosing(name: string)
    requires '/' !in name
    ensures !EndsWith(name, "/")
  {
    if 1 <= |name| {
      assert name[|name| - 1] in name && name[|name| - 1..] == [name[|name| - 1]];
    }
  }

  lemma NamePartStripped(f: Form, repo: string, git: bool, close: bool)
    requires BareName(repo)
    ensures var name := repo + if git then ".git" else "";
      BareName(name) && DropSlash(NamePart(f, repo, git, close), MayClose(f)) == name
  {
    var name := repo + if git then ".git" else "";
    BareHasNoSlash(name);
    if close && MayClose(f) {
      assert NamePart(f, repo, git, close)[|name|..] == "/";
    } else {
      assert NamePart(f, repo, git, close) == name;
      NoClosing(name);
    }
  }

  lemma PrefixStart(f: Form)
    ensures !f.Bare? ==> Prefix(f) != "" && !IsSpace(Prefix(f)[0])
  {
  }

  lemma PartEnd(f: Form, repo: string, git: bool, close: bool)
    requires BareName(repo)
    ensures var part := NamePart(f, repo, git, close); part != "" && !IsSpace(part[|part| - 1])
  {
    BareHasNoSlash(repo);
  }

  lemma SpellingIsTrimmed(f: Form, owner: string, repo: string, git: bool, close: bool)
    requires BareName(owner) && BareName(repo)
    ensures var s := Spelling(f, owner, repo, git, close); TrimSpace(s) == s && s != ""
  {
    var s := Spelling(f, owner, repo, git, close);
    var part := NamePart(f, repo, git, close);
    BareHasNoSlash(owner);
    PrefixStart(f);
    PartEnd(f, repo, git, close);
    assert s[0] == if f.Bare? then owner[0] else Prefix(f)[0];
    assert s[|s| - 1] == part[|part| - 1];
  }

  lemma BehindPrefix(prefix: string, body: string, slash: bool)
    ensures StripAfter(prefix + body, prefix, slash) == StripBody(body, slash)
  {
    assert (prefix + body)[|prefix|..] == body;
  }

  /** A trimmed text behind a URL prefix is read by that prefix's pattern, no earlier one. */
  lemma UrlStrip(f: Form, s: string, body: string)
    requires !f.Bare? && s == Prefix(f) + body && TrimSpace(s) == s && StripBody(body, MayClose(f)).Some?
    ensures Strip(s) == StripBody(body, MayClose(f)).value
  {
    BehindPrefix(Prefix(f), body, MayClose(f));
    EarlierPatterns(f, s);
    match f {
      case Https =>
      case Http =>
      case Ssh =>
      case Short =>
    }
  }

  lemma UrlBody(f: Form, owner: string, repo: string, git: bool, close: bool)
    requires BareName(owner) && BareName(repo)
    ensures StripBody(owner + ("/" + NamePart(f, repo, git, close)), MayClose(f))
         == Some(owner + ("/" + DropGit(repo + if git then ".git" else "")))
  {
    BareHasNoSlash(owner);
    NamePartStripped(f, repo, git, close);
    BareHasNoSlash(repo + if git then ".git" else "");
    StripBodyOf(owner, NamePart(f, repo, git, close), MayClose(f));
  }

  lemma UrlOf(f: Form, s: string, body: string, repo: string)
    requires !f.Bare? && s == Prefix(f) + body && TrimSpace(s) == s && StripBody(body, MayClose(f)) == Some(repo)
    ensures ParseRepo(s) == repo
  {
    ParseRepoRefinesStrip(s);
    UrlStrip(f, s, body);
  }

  /** Every URL form gives owner and name, with one `.git` less; it matches no earlier pattern. */
  lemma UrlParses(f: Form, owner: string, repo: string, git: bool, close: bool)
    requires BareName(owner) && BareName(repo) && !f.Bare?
    ensures ParseRepo(Spelling(f, owner, repo, git, close))
         == owner + ("/" + DropGit(repo + if git then ".git" else ""))
  {
    SpellingIsTrimmed(f, owner, repo, git, close);
    UrlBody(f, owner, repo, git, close);
    UrlOf(f, Spelling(f, owner, repo, git, close), owner + ("/" + NamePart(f, repo, git, close)),
          owner + ("/" + DropGit(repo + if git then ".git" else "")));
  }

  lemma EarlierPatterns(f: Form, s: string)
    requires Prefix(f) <= s && !f.Bare?
    ensures !f.Https? ==> !("https://github.com/" <= s)
    ensures f.Ssh? || f.Short? ==> !("http://github.com/" <= s)
    ensures f.Short? ==> !("git@github.com:" <= s)
  {
    match f {
      case Https =>
      case Http => PrefixClash(s, Prefix(f), "https://github.com/", 4);
      case Ssh =>
        PrefixClash(s, Prefix(f), "https://github.com/", 0);
        PrefixClash(s, Prefix(f), "http://github.com/", 0);
      case Short =>
        PrefixClash(s, Prefix(f), "https://github.com/", 0);
        PrefixClash(s, Prefix(f), "http://github.com/", 0);
        PrefixClash(s, Prefix(f), "git@github.com:", 3);
    }
  }

  lemma BareChars(owner: string, name: string)
    requires BareName(owner) && BareName(name)
    ensures var s := owner + ("/" + name);
      forall j | 0 <= j < |s| :: if j == |owner| then s[j] == '/' else InClass(BareChar, s[j])
  {
    var s := owner + ("/" + name);
    forall j | 0 <= j < |s| ensures if j == |owner| then s[j] == '/' else InClass(BareChar, s[j]) {
      if j < |owner| {
        BareNameAt(owner, j);
      } else if j > |owner| {
        BareNameAt(name, j - |owner| - 1);
      }
    }
  }

  /** A bare pair is no URL of the other forms: each has a colon or an at sign, or one slash too many. */
  lemma BareIsNoUrl(owner: string, name: string)
    requires BareName(owner) && BareName(name)
    ensures var s := owner + ("/" + name);
      !("https://github.com/" <= s) && !("http://github.com/" <= s) && !("git@github.com:" <= s)
  {
    var s := owner + ("/" + name);
    BareChars(owner, name);
    PrefixChar(s, "https://github.com/", 5);
    PrefixChar(s, "http://github.com/", 4);
    PrefixChar(s, "git@github.com:", 3);
  }

  lemma PrefixChar(s: string, a: string, i: nat)
    requires i < |a|
    ensures a <= s ==> i < |s| && s[i] == a[i]
  {
  }

  lemma SlashlessBody(name: string, slash: bool)
    requires '/' !in name
    ensures StripBody(name, slash) == None
  {
    RunCovers(NotSlash, name, 0, |name|);
  }

  lemma BareIsNoShortUrl(owner: string, name: string)
    requires BareName(owner) && BareName(name)
    ensures StripAfter(owner + ("/" + name), "github.com/", true) == None
  {
    var s := owner + ("/" + name);
    BareChars(owner, name);
    BareHasNoSlash(name);
    PrefixChar(s, "github.com/", 10);
    if "github.com/" <= s {
      assert s[11..] == name;
      SlashlessBody(name, true);
    }
  }

  lemma BareTrimmed(owner: string, name: string)
    requires BareName(owner) && BareName(name)
    ensures var s := owner + ("/" + name); TrimSpace(s) == s && BareRepo(s)
  {
    var s := owner + ("/" + name);
    BareHasNoSlash(owner);
    BareHasNoSlash(name);
    assert s[0] == owner[0] && s[|s| - 1] == name[|name| - 1];
    assert s[..|owner|] == owner && s[|owner| + 1..] == name && s[|owner|] == '/';
  }

  lemma BareStrip(owner: string, name: string)
    requires BareName(owner) && BareName(name)
    ensures Strip(owner + ("/" + name)) == owner + ("/" + name)
  {
    BareTrimmed(owner, name);
    BareIsNoUrl(owner, name);
    BareIsNoShortUrl(owner, name);
  }

  lemma BareParses(owner: string, repo: string, git: bool, close: bool)
    requires BareName(owner) && BareName(repo)
    ensures ParseRepo(Spelling(Bare, owner, repo, git, close)) == owner + ("/" + (repo + if git then ".git" else ""))
  {
    var name := repo + if git then ".git" else "";
    var s := Spelling(Bare, owner, repo, git, close);
    assert s == owner + ("/" + name);
    ParseRepoRefinesStrip(s);
    BareStrip(owner, name);
  }

  /** The name a spelling leads to, once `getWorkDir` has dropped its own `.git`. */
  function Named(f: Form, repo: string, git: bool): string {
    var name := repo + if git then ".git" else "";
    TrimGit(if f.Bare? then name else DropGit(name))
  }

  lemma NameSlashFree(repo: string, git: bool)
    requires BareName(repo)
    ensures var name := repo + if git then ".git" else "";
      '/' !in name && '/' !in DropGit(name)
  {
    var name := repo + if git then ".git" else "";
    NamePartStripped(Bare, repo, git, false);
    BareHasNoSlash(name);
  }

  lemma PairWorkDir(owner: string, name: string)
    requires '/' !in owner && '/' !in name
    ensures WorkDir(owner + ("/" + name)) == DirOf(TrimGit(name))
  {
    assert owner + ("/" + name) == owner + "/" + name;
    WorkDirOf(owner, name);
  }

  lemma SpellingWorkDir(f: Form, owner: string, repo: string, git: bool, close: bool)
    requires BareName(owner) && BareName(repo)
    ensures WorkDir(ParseRepo(Spelling(f, owner, repo, git, close))) == DirOf(Named(f, repo, git))
  {
    var name := repo + if git then ".git" else "";
    BareHasNoSlash(owner);
    NameSlashFree(repo, git);
    if f.Bare? {
      BareParses(owner, repo, git, close);
      PairWorkDir(owner, name);
    } else {
      UrlParses(f, owner, repo, git, close);
      PairWorkDir(owner, DropGit(name));
    }
  }

  // ---------- the theorems ----------

  /** Every spelling of the repository gives the same work directory. */
  ghost predicate OneDirectory(owner: string, repo: string) {
    forall f: Form, g: Form, git: bool, git': bool, close: bool, close': bool ::
      WorkDir(ParseRepo(Spelling(f, owner, repo, git, close)))
      == WorkDir(ParseRepo(Spelling(g, owner, repo, git', close')))
  }

  lemma GitSuffix(repo: string)
    ensures EndsWith(repo + ".git", ".git") && DropEnd(repo + ".git", 4) == repo
  {
  }

  /** With a name that does not end in `.git`, that directory is the one the name itself says. */
  lemma SpellingInvariance(f: Form, owner: string, repo: string, git: bool, close: bool)
    requires BareName(owner) && BareName(repo) && !EndsWith(repo, ".git")
    ensures WorkDir(ParseRepo(Spelling(f, owner, repo, git, close))) == DirOf(repo)
  {
    SpellingWorkDir(f, owner, repo, git, close);
    GitSuffix(repo);
    assert repo + "" == repo;
  }

  /** For all names over the bare alphabet the spellings agree exactly when the name does not end in `.git`. */
  lemma SpellingsAgreeIff(owner: string, repo: string)
    requires BareName(owner) && BareName(repo)
    ensures OneDirectory(owner, repo) <==> !EndsWith(repo, ".git")
  {
    if EndsWith(repo, ".git") {
      SpellingWorkDir(Bare, owner, repo, false, false);
      SpellingWorkDir(Bare, owner, repo, true, false);
      GitSuffix(repo);
      assert repo + "" == repo;
      DifferentDirs(repo);
    } else {
      forall f: Form, g: Form, git: bool, git': bool, close: bool, close': bool
        ensures WorkDir(ParseRepo(Spelling(f, owner, repo, git, close)))
             == WorkDir(ParseRepo(Spelling(g, owner, repo, git', close')))
      {
        SpellingInvariance(f, owner, repo, git, close);
        SpellingInvariance(g, owner, repo, git', close');
      }
    }
  }

  lemma DifferentDirs(repo: string)
    requires EndsWith(repo, ".git")
    ensures DirOf(repo) != DirOf(DropEnd(repo, 4))
  {
    assert repo[|repo| - 4..][3] == repo[|repo| - 1];
    assert |DirOf(repo)| == |BASE| + 1 + |repo|;
    assert |DirOf(DropEnd(repo, 4))| <= |BASE| + 1 + |DropEnd(repo, 4)|;
  }

  // ---------- the clone URL ----------

  /** The GitHub URL the bridge builds for a repository that is not already a URL. */
  function GitHubUrl(repo: string): string {
    "https://github.com/" + repo
  }

  lemma StripBodyShrinks(body: string, slash: bool)
    ensures var r := StripBody(body, slash); r.Some? ==> |r.value| <= |body|
  {
  }

  lemma NotBareRepo(s: string, i: nat)
    requires i < |s| && s[i] != '/' && !InClass(BareChar, s[i])
    ensures !BareRepo(s)
  {
    forall k | 0 <= k < |s| && s[k] == '/' ensures !(BareName(s[..k]) && BareName(s[k + 1..])) {
      BareNameAt(s[..k], i);
      BareNameAt(s[k + 1..], i - k - 1);
      assert i < k ==> s[..k][i] == s[i];
      assert k < i ==> s[k + 1..][i - k - 1] == s[i];
    }
  }

  /** A trimmed text that starts like an HTTPS URL can only be read as one. */
  lemma HttpsOnly(s: string, body: string)
    requires s == GitHubUrl(body) && TrimSpace(s) == s
    ensures Strip(s) == match StripBody(body, true) case Some(r) => r case None => ""
  {
    assert "https://github.com/" <= s && s[19..] == body;
    PrefixClash(s, "https://github.com/", "http://github.com/", 4);
    PrefixClash(s, "https://github.com/", "git@github.com:", 0);
    PrefixClash(s, "https://github.com/", "github.com/", 0);
    NotBareRepo(s, 5);
  }

  /** Trimming a text that starts with a letter takes spaces from its end only. */
  lemma {:induction false} TrimEnd(s: string, n: nat)
    requires n < |s| && !IsSpace(s[0]) && !IsSpace(s[n])
    ensures s[..n + 1] <= TrimSpace(s) <= s
    ensures TrimSpace(s) == s <==> !IsSpace(s[|s| - 1])
  {
    if IsSpace(s[|s| - 1]) {
      assert s[..|s| - 1][0] == s[0] && s[..|s| - 1][n] == s[n];
      TrimEnd(s[..|s| - 1], n);
      assert s[..|s| - 1][..n + 1] == s[..n + 1];
    }
  }

  lemma SplitBody(a: string, b: string)
    requires a != "" && '/' !in a && GoodName(b)
    ensures StripBody(a + ("/" + b), true) == Some(a + ("/" + DropGit(b)))
  {
    NoClosing(b);
    StripBodyOf(a, b, true);
  }

  /** Trimming the URL of a pair is trimming the end of the pair. */
  lemma UrlTrimmed(r: string, k: nat) returns (body: string)
    requires k < |r| && r[k] == '/'
    ensures TrimSpace(GitHubUrl(r)) == GitHubUrl(body) && |body| <= |r|
    ensures if IsSpace(r[|r| - 1]) then |body| < |r| else body == r
  {
    var s := GitHubUrl(r);
    assert s[19 + k] == '/' && s[|s| - 1] == r[|r| - 1];
    TrimEnd(s, 19 + k);
    body := TrimSpace(s)[19..];
    assert TrimSpace(s) == GitHubUrl(body);
  }

  lemma SpacedUrlIsLost(r: string, k: nat)
    requires k < |r| && r[k] == '/' && IsSpace(r[|r| - 1])
    ensures ParseRepo(GitHubUrl(r)) != r
  {
    var body := UrlTrimmed(r, k);
    ParseRepoRefinesStrip(GitHubUrl(r));
    HttpsOnly(GitHubUrl(body), body);
    StripBodyShrinks(body, true);
  }

  lemma CleanUrlParses(a: string, b: string, r: string)
    requires a != "" && '/' !in a && GoodName(b) && r == a + ("/" + b) && !IsSpace(r[|r| - 1])
    ensures ParseRepo(GitHubUrl(r)) == a + ("/" + DropGit(b))
  {
    assert r[|a|] == '/';
    var body := UrlTrimmed(r, |a|);
    ParseRepoRefinesStrip(GitHubUrl(r));
    HttpsOnly(GitHubUrl(r), r);
    SplitBody(a, b);
  }

  /** The GitHub URL of a pair parses back exactly when its end survives: no `.git` dropped, no space trimmed. */
  lemma GitHubUrlParses(a: string, b: string)
    requires a != "" && '/' !in a && GoodName(b)
    ensures var r := a + ("/" + b);
      ParseRepo(GitHubUrl(r)) == r <==> (EndsWith(b, ".git") ==> b == ".git") && !IsSpace(b[|b| - 1])
  {
    var r := a + ("/" + b);
    LastOfPair(a, b);
    assert r[|a|] == '/';
    if IsSpace(b[|b| - 1]) {
      SpacedUrlIsLost(r, |a|);
    } else {
      CleanUrlParses(a, b, r);
      SameEnd(a, DropGit(b), b);
    }
  }

  lemma SameEnd(a: string, x: string, y: string)
    ensures a + ("/" + x) == a + ("/" + y) <==> x == y
  {
    assert (a + ("/" + x))[|a| + 1..] == x && (a + ("/" + y))[|a| + 1..] == y;
  }

  lemma StripLength(s: string)
    ensures |Strip(s)| <= |TrimSpace(s)|
  {
    var t := TrimSpace(s);
    AfterLength(t, "https://github.com/", true);
    AfterLength(t, "http://github.com/", true);
    AfterLength(t, "git@github.com:", false);
    AfterLength(t, "github.com/", true);
  }

  lemma AfterLength(s: string, prefix: string, slash: bool)
    ensures var r := StripAfter(s, prefix, slash); r.Some? ==> |r.value| <= |s| - |prefix|
  {
    if prefix <= s {
      StripBodyShrinks(s[|prefix|..], slash);
    }
  }

  lemma TwoSlashes(r: string, i: nat, j: nat)
    requires i < j
    ensures j < |r| && r[i] == '/' && r[j] == '/' ==> !OneSlash(r)
  {
    if j < |r| && r[i] == '/' && r[j] == '/' {
      forall k | 0 < k < |r| - 1 && r[k] == '/' ensures '/' in r[..k] || '/' in r[k + 1..] {
        if i < k {
          assert r[..k][i] == '/';
        } else {
          assert r[k + 1..][j - k - 1] == '/';
        }
      }
    }
  }

  lemma NotHttps(r: string)
    requires OneSlash(r)
    ensures !("https://github.com/" <= r) && !("http://github.com/" <= r)
  {
    PrefixChar(r, "https://github.com/", 6);
    PrefixChar(r, "https://github.com/", 7);
    TwoSlashes(r, 6, 7);
    PrefixChar(r, "http://github.com/", 5);
    PrefixChar(r, "http://github.com/", 6);
    TwoSlashes(r, 5, 6);
  }

  lemma GitAtIsLost(r: string)
    requires OneSlash(r) && "git@" <= r && TrimSpace(r) == r
    ensures Strip(r) != r && !BareRepo(r)
  {
    NotHttps(r);
    AfterLength(r, "git@github.com:", false);
    PrefixClash(r, "git@", "github.com/", 3);
    assert r[3] == '@';
    NotBareRepo(r, 3);
  }

  lemma HttpIsBare(r: string)
    requires OneSlash(r) && "http" <= r && TrimSpace(r) == r
    ensures Strip(r) == r <==> BareRepo(r)
  {
    NotHttps(r);
    PrefixClash(r, "http", "git@github.com:", 0);
    PrefixClash(r, "http", "github.com/", 0);
  }

  lemma PassedStart(r: string)
    requires "http" <= r || "git@" <= r
    ensures r != "" && !IsSpace(r[0])
  {
    PrefixChar(r, "http", 0);
    PrefixChar(r, "git@", 0);
  }

  lemma SpaceIsNotBare(c: char)
    requires IsSpace(c)
    ensures c != '/' && !InClass(BareChar, c)
  {
  }

  lemma PassedSpace(r: string)
    requires |TrimSpace(r)| < |r|
    ensures Strip(r) != r
  {
    StripLength(r);
  }

  /** A pair that starts with `http` or `git@` is its own clone URL: it parses to itself exactly when it is bare. */
  lemma PassedThrough(r: string)
    requires OneSlash(r) && ("http" <= r || "git@" <= r)
    ensures Strip(r) == r <==> BareRepo(r)
  {
    PassedStart(r);
    TrimEnd(r, 0);
    if IsSpace(r[|r| - 1]) {
      PassedSpace(r);
      SpaceIsNotBare(r[|r| - 1]);
      NotBareRepo(r, |r| - 1);
    } else if "git@" <= r {
      GitAtIsLost(r);
    } else {
      HttpIsBare(r);
    }
  }

  lemma NameOfPair(a: string, b: string)
    requires '/' !in a && '/' !in b
    ensures NameOf(a + ("/" + b)) == b
  {
    SplitAt(a, b);
    SplitPlain(b);
  }

  /** What a caller can check of a parsed repository before it is cloned. */
  predicate ClonesBack(r: string)
    requires r != ""
  {
    if "http" <= r || "git@" <= r then BareRepo(r)
    else !IsSpace(r[|r| - 1]) && (EndsWith(NameOf(r), ".git") ==> NameOf(r) == ".git")
  }

  lemma PlainParsesBack(a: string, b: string, r: string)
    requires a != "" && '/' !in a && GoodName(b) && r == a + ("/" + b)
    requires !("http" <= r) && !("git@" <= r)
    ensures ParseRepo(CloneUrl(r)) == r <==> ClonesBack(r)
  {
    assert b[|b| - 1] == r[|r| - 1] && CloneUrl(r) == GitHubUrl(r);
    NameOfPair(a, b);
    GitHubUrlParses(a, b);
  }

  lemma PairParsesBack(r: string)
    requires OneSlash(r)
    ensures ParseRepo(CloneUrl(r)) == r <==> ClonesBack(r)
  {
    if "http" <= r || "git@" <= r {
      ParseRepoRefinesStrip(r);
      PassedThrough(r);
    } else {
      var k :| 0 < k < |r| - 1 && r[k] == '/' && '/' !in r[..k] && '/' !in r[k + 1..];
      assert r == r[..k] + ("/" + r[k + 1..]);
      PlainParsesBack(r[..k], r[k + 1..], r);
    }
  }

  /** The clone URL built from any parsed repository parses back to it exactly when `ClonesBack` says so. */
  lemma CloneUrlParsesBack(input: string)
    ensures var r := ParseRepo(input);
      r != "" ==> (ParseRepo(CloneUrl(r)) == r <==> ClonesBack(r))
  {
    ParsedShape(input);
    if ParseRepo(input) != "" {
      PairParsesBack(ParseRepo(input));
    }
  }

  lemma BarePair(a: string, b: string, r: string)
    requires BareName(a) && BareName(b) && r == a + ("/" + b)
    ensures OneSlash(r) && BareRepo(r) && NameOf(r) == b
    ensures !("git@" <= r) && !IsSpace(r[|r| - 1])
    ensures "http" <= r <==> "http" <= a
  {
    BareHasNoSlash(a);
    BareHasNoSlash(b);
    PairHasOneSlash(a, b);
    BareTrimmed(a, b);
    NameOfPair(a, b);
    LastOfPair(a, b);
    BareStart(a, b, r);
  }

  lemma LastOfPair(a: string, b: string)
    requires b != ""
    ensures var r := a + ("/" + b); r[|r| - 1] == b[|b| - 1]
  {
  }

  lemma BareStart(a: string, b: string, r: string)
    requires BareName(a) && BareName(b) && r == a + ("/" + b)
    ensures !("git@" <= r)
    ensures "http" <= r <==> "http" <= a
  {
    BareChars(a, b);
    PrefixChar(r, "git@", 3);
    assert a <= r && r[|a|] == '/';
    assert |a| < 4 ==> "http"[|a|] != '/';
  }

  /** Over the bare alphabet: an owner that starts with `http` is passed through, and only a dropped `.git` is lost. */
  lemma BareClonesBack(a: string, b: string)
    requires BareName(a) && BareName(b)
    ensures var r := a + ("/" + b);
      ParseRepo(CloneUrl(r)) == r <==> ("http" <= a || (EndsWith(b, ".git") ==> b == ".git"))
  {
    var r := a + ("/" + b);
    BarePair(a, b, r);
    PairParsesBack(r);
  }

  // ---------- a URL that git can clone ----------

  /** A text behind the HTTPS prefix is read by the HTTPS pattern as its body is. */
  lemma HttpsReads(body: string)
    ensures Capture(HTTPS, GitHubUrl(body)) == StripBody(body, true)
  {
    var s := GitHubUrl(body);
    assert "https://github.com/" <= s && s[19..] == body;
    PrefixClash(s, "https://github.com/", "http://github.com/", 4);
    CaptureHttps(s);
  }

  /** A text that is passed through is no GitHub URL: it has one slash only. */
  lemma PassedIsNoUrl(r: string)
    requires OneSlash(r) && ("http" <= r || "git@" <= r)
    ensures Capture(HTTPS, TrimSpace(r)) == None
  {
    PassedStart(r);
    TrimEnd(r, 0);
    NotHttps(r);
    PrefixOfPrefix(r, TrimSpace(r), "https://github.com/");
    PrefixOfPrefix(r, TrimSpace(r), "http://github.com/");
    CaptureHttps(TrimSpace(r));
  }

  lemma PrefixOfPrefix(r: string, t: string, a: string)
    requires t <= r && !(a <= r)
    ensures !(a <= t)
  {
  }

  /** The HTTPS pattern finds in the GitHub URL of a pair that very pair exactly when the pair's end survives. */
  lemma GitHubUrlCaptures(a: string, b: string)
    requires a != "" && '/' !in a && GoodName(b)
    ensures var r := a + ("/" + b);
      Capture(HTTPS, TrimSpace(GitHubUrl(r))) == Some(r)
      <==> (EndsWith(b, ".git") ==> b == ".git") && !IsSpace(b[|b| - 1])
  {
    var r := a + ("/" + b);
    var body := UrlTrimmed(r, |a|);
    HttpsReads(body);
    LastOfPair(a, b);
    if IsSpace(b[|b| - 1]) {
      StripBodyShrinks(body, true);
    } else {
      SplitBody(a, b);
      assert DropGit(b) == b <==> (EndsWith(b, ".git") ==> b == ".git");
    }
  }

  /** What a caller can check: no prefix that is taken for a URL, and nothing at the end that a URL would lose. */
  predicate ClonesFromGitHub(r: string)
    requires r != ""
  {
    && !("http" <= r) && !("git@" <= r)
    && !IsSpace(r[|r| - 1]) && (EndsWith(NameOf(r), ".git") ==> NameOf(r) == ".git")
  }

  lemma PairGetsUrl(a: string, b: string, r: string)
    requires a != "" && '/' !in a && GoodName(b) && r == a + ("/" + b)
    requires !("http" <= r) && !("git@" <= r)
    ensures Capture(HTTPS, TrimSpace(CloneUrl(r))) == Some(r) <==> ClonesFromGitHub(r)
  {
    NameOfPair(a, b);
    LastOfPair(a, b);
    GitHubUrlCaptures(a, b);
  }

  lemma RepoGetsUrl(r: string)
    requires OneSlash(r)
    ensures Capture(HTTPS, TrimSpace(CloneUrl(r))) == Some(r) <==> ClonesFromGitHub(r)
  {
    if "http" <= r || "git@" <= r {
      PassedIsNoUrl(r);
    } else {
      var k :| 0 < k < |r| - 1 && r[k] == '/' && '/' !in r[..k] && '/' !in r[k + 1..];
      assert r == r[..k] + ("/" + r[k + 1..]);
      PairGetsUrl(r[..k], r[k + 1..], r);
    }
  }

  /** For every input: git is given the GitHub URL of the parsed repository exactly when `ClonesFromGitHub` says so. */
  lemma GitGetsUrlIff(input: string)
    ensures var r := ParseRepo(input);
      r != "" ==> (Capture(HTTPS, TrimSpace(CloneUrl(r))) == Some(r) <==> ClonesFromGitHub(r))
  {
    ParsedShape(input);
    if ParseRepo(input) != "" {
      RepoGetsUrl(ParseRepo(input));
    }
  }
}
