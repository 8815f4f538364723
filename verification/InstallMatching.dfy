/**
 What the matcher of `InstallHints` finds in the texts that the rewrites produce.

 - Where the pattern cannot match: the blank after a keyword follows t, f, m or r, the last letters of the keywords.
   A text whose words end in other letters ("quiet" words) has no match (NoMatchFrom, FramedHasNoMatch).
 - Where it must match: a quiet head is skipped (MatchesSkipPrefix), and a command of the dnf family that follows
   is found with its package (CommandIsFound), whatever comes after the package.
 - The tail after the first ampersands is found again behind any head without one (TailCarried, NoTail), and a match
   in a rewritten hint can lie in its tail only (OnlyTailMatches).
 */
module InstallMatching {
  import opened InstallHints
  import opened Text
  import opened Wrappers

  // ----- where the pattern cannot match

  lemma {:induction false} DropBlanksAt(s: string)
    requires s != [] && IsBlank(s[0])
    ensures DropBlanks(s) == DropBlanks(s[1..])
    ensures |s| > 1 && !IsBlank(s[1]) ==> DropBlanks(s) == s[1..]
  {
  }

  /** The blank at `e` cannot be the one that follows a keyword. */
  predicate BadBlank(s: string, e: nat)
    requires e < |s|
  {
    e == 0 || s[e - 1] !in ['t', 'f', 'm', 'r'] || (e + 1 < |s| && !IsBlank(s[e + 1]) && s[e + 1] != 'i')
  }

  /** Every keyword ends in t, f, m or r, and `install` starts with i. */
  lemma {:induction false} NoKeywordAt(s: string, i: nat, keywords: seq<string>)
    requires i <= |s|
    requires forall e :: 0 <= e < |s| && IsBlank(s[e]) ==> BadBlank(s, e)
    requires forall k :: 0 <= k < |keywords| ==>
      |keywords[k]| > 0 && keywords[k][|keywords[k]| - 1] in ['t', 'f', 'm', 'r']
    ensures KeywordAt(s, i, keywords) == None
  {
    if keywords != [] {
      var key := keywords[0];
      if HasPrefix(s[i..], key) {
        var e := i + |key|;
        var rest := s[i..][|key|..];
        assert rest == s[e..] && s[e - 1] == s[i..][|key| - 1] == key[|key| - 1];
        if rest != [] && IsBlank(rest[0]) {
          assert rest[0] == s[e] && BadBlank(s, e) && rest[1] == s[e + 1];
          DropBlanksAt(rest);
          assert "install"[0] == 'i';
        }
      }
      assert forall k :: 0 <= k < |keywords[1..]| ==> keywords[1..][k] == keywords[k + 1];
      NoKeywordAt(s, i, keywords[1..]);
    }
  }

  lemma {:induction false} NoMatchFrom(s: string, i: nat)
    requires i <= |s|
    requires forall e :: 0 <= e < |s| && IsBlank(s[e]) ==> BadBlank(s, e)
    ensures FindFrom(s, i) == None
    decreases |s| - i
  {
    NoKeywordAt(s, i, KEYWORDS);
    if i < |s| {
      NoMatchFrom(s, i + 1);
    }
  }

  lemma {:induction false} FoundIsToken(s: string, i: nat)
    requires i <= |s| && FindFrom(s, i).Some?
    ensures var pkg := FindFrom(s, i).value;
      pkg != [] && IsAlnum(pkg[0]) && forall k :: 0 <= k < |pkg| ==> IsTokenChar(pkg[k])
    decreases |s| - i
  {
    if MatchAt(s, i).Some? {
      KeywordAtIsToken(s, i, KEYWORDS);
    } else {
      FoundIsToken(s, i + 1);
    }
  }

  lemma {:induction false} KeywordAtIsToken(s: string, i: nat, keywords: seq<string>)
    requires i <= |s| && KeywordAt(s, i, keywords).Some?
    ensures var pkg := KeywordAt(s, i, keywords).value;
      pkg != [] && IsAlnum(pkg[0]) && forall k :: 0 <= k < |pkg| ==> IsTokenChar(pkg[k])
  {
    if !(HasPrefix(s[i..], keywords[0]) && PackageAfter(s[i..][|keywords[0]|..]).Some?) {
      KeywordAtIsToken(s, i, keywords[1..]);
    }
  }

  /** A word that does not end like a keyword. */
  predicate Quiet(word: string) {
    word != [] && word[|word| - 1] !in ['t', 'f', 'm', 'r'] && forall k :: 0 <= k < |word| ==> !IsBlank(word[k])
  }

  /** No blank among quiet words can follow a keyword. */
  lemma {:induction false} QuietWords(ws: seq<string>, e: nat)
    requires forall k :: 0 <= k < |ws| ==> Quiet(ws[k])
    requires e < |Words(ws)| && IsBlank(Words(ws)[e])
    ensures e > 0 && Words(ws)[e - 1] !in ['t', 'f', 'm', 'r']
  {
    var n := |ws| - 1;
    var before := Words(ws[..n]);
    if e < |before| {
      QuietWords(ws[..n], e);
    } else {
      assert Words(ws)[e - 1] == ws[n][|ws[n]| - 1];
    }
  }

  predicate QuietHead(head: string) {
    forall e :: 0 <= e < |head| && IsBlank(head[e]) ==> e > 0 && head[e - 1] !in ['t', 'f', 'm', 'r']
  }

  predicate QuietFoot(foot: string) {
    forall e :: 0 <= e < |foot| && IsBlank(foot[e]) ==> e + 1 < |foot| && !IsBlank(foot[e + 1]) && foot[e + 1] != 'i'
  }

  /** A quiet head, a package name and a quiet foot hold no place where the pattern could match. */
  lemma FramedHasNoMatch(head: string, pkg: string, foot: string)
    requires QuietHead(head) && QuietFoot(foot) && forall k :: 0 <= k < |pkg| ==> IsTokenChar(pkg[k])
    ensures FindInstall(head + pkg + foot) == None
  {
    var s := head + pkg + foot;
    forall e | 0 <= e < |s| && IsBlank(s[e]) ensures BadBlank(s, e) {
      if e >= |head| + |pkg| {
        var f := e - |head| - |pkg|;
        assert s[e] == foot[f] && (f + 1 < |foot| ==> s[e + 1] == foot[f + 1]);
      }
    }
    NoMatchFrom(s, 0);
  }

  lemma {:induction false} WordsAreQuietHead(ws: seq<string>)
    requires forall k :: 0 <= k < |ws| ==> Quiet(ws[k])
    ensures QuietHead(Words(ws))
  {
    forall e | 0 <= e < |Words(ws)| && IsBlank(Words(ws)[e]) {
      QuietWords(ws, e);
    }
  }

  lemma RebootIsQuietFoot()
    ensures QuietFoot(THEN_REBOOT)
  {
  }

  lemma ImmutableWordsAreQuiet()
    ensures forall k :: 0 <= k < |TRANSACTIONAL| ==> Quiet(TRANSACTIONAL[k])
    ensures forall k :: 0 <= k < |OSTREE| ==> Quiet(OSTREE[k])
  {
    assert Quiet("transactional-update") && Quiet("(transactional):");
    assert Quiet("rpm-ostree") && Quiet("(ostree):") && Quiet("install");
    assert Quiet("to") && Quiet("fix") && Quiet("pkg");
  }

  // ----- what the rewrites do to their own output

  /** No match starts in a prefix that ends in a blank and whose blanks cannot follow a keyword. */
  lemma {:induction false} MatchesSkipPrefix(q: string, u: string, i: nat)
    requires q != "" && IsBlank(q[|q| - 1]) && i <= |q|
    requires forall e :: 0 <= e < |q| && IsBlank(q[e]) ==> BadBlank(q + u, e)
    ensures FindFrom(q + u, i) == FindInstall(u)
    decreases |q| - i
  {
    if i < |q| {
      NoKeywordInPrefix(q, u, i, KEYWORDS);
      MatchesSkipPrefix(q, u, i + 1);
    } else {
      MatchesShift(q, u, 0);
    }
  }

  lemma {:induction false} NoKeywordInPrefix(q: string, u: string, i: nat, keywords: seq<string>)
    requires q != "" && IsBlank(q[|q| - 1]) && i < |q|
    requires forall e :: 0 <= e < |q| && IsBlank(q[e]) ==> BadBlank(q + u, e)
    requires forall k :: 0 <= k < |keywords| ==> Keyword(keywords[k])
    ensures KeywordAt(q + u, i, keywords) == None
  {
    if keywords != [] {
      var s, key := q + u, keywords[0];
      if HasPrefix(s[i..], key) {
        var e := i + |key|;
        var rest := s[i..][|key|..];
        assert rest == s[e..] && s[e - 1] == s[i..][|key| - 1] == key[|key| - 1];
        assert forall k :: 0 <= k < |key| ==> s[i + k] == s[i..][k] == key[k];
        assert s[|q| - 1] == q[|q| - 1] && e < |q|;
        if IsBlank(rest[0]) {
          assert rest[0] == s[e] == q[e] && BadBlank(s, e) && rest[1] == s[e + 1];
          DropBlanksAt(rest);
          assert "install"[0] == 'i';
        }
      }
      assert forall k :: 0 <= k < |keywords[1..]| ==> keywords[1..][k] == keywords[k + 1];
      NoKeywordInPrefix(q, u, i, keywords[1..]);
    }
  }

  predicate Keyword(key: string) {
    key != [] && key[|key| - 1] in ['t', 'f', 'm', 'r'] && forall k :: 0 <= k < |key| ==> !IsBlank(key[k])
  }

  lemma {:induction false} MatchesShift(q: string, u: string, j: nat)
    requires q != "" && IsBlank(q[|q| - 1]) && j <= |u|
    ensures FindFrom(q + u, |q| + j) == FindFrom(u, j)
    decreases |u| - j
  {
    var s, k := q + u, |q| + j;
    MatchShifts(q, u, j);
    assert FindFrom(s, k) ==
      if MatchAt(s, k).Some? then MatchAt(s, k) else if k == |s| then None else FindFrom(s, k + 1);
    if j < |u| {
      MatchesShift(q, u, j + 1);
    }
  }

  lemma MatchShifts(q: string, u: string, j: nat)
    requires q != "" && IsBlank(q[|q| - 1]) && j <= |u|
    ensures MatchAt(q + u, |q| + j) == MatchAt(u, j)
  {
    assert (q + u)[|q| + j..] == u[j..];
    assert WordStart(q + u, |q| + j) == WordStart(u, j);
    KeywordAtReadsSuffix(q + u, |q| + j, u, j, KEYWORDS);
  }

  lemma {:induction false} KeywordAtReadsSuffix(s: string, i: nat, u: string, j: nat, keywords: seq<string>)
    requires i <= |s| && j <= |u| && s[i..] == u[j..]
    ensures KeywordAt(s, i, keywords) == KeywordAt(u, j, keywords)
  {
    if keywords != [] {
      KeywordAtReadsSuffix(s, i, u, j, keywords[1..]);
    }
  }

  lemma {:induction false} TokenOf(pkg: string, rest: string)
    requires forall k :: 0 <= k < |pkg| ==> IsTokenChar(pkg[k])
    requires rest == "" || !IsTokenChar(rest[0])
    ensures Token(pkg + rest) == pkg
  {
    if pkg == "" {
      assert pkg + rest == rest;
    } else {
      assert (pkg + rest)[1..] == pkg[1..] + rest;
      TokenOf(pkg[1..], rest);
    }
  }

  lemma PackageAfterInstall(pkg: string, rest: string)
    requires pkg != "" && IsAlnum(pkg[0]) && forall k :: 0 <= k < |pkg| ==> IsTokenChar(pkg[k])
    requires rest == "" || !IsTokenChar(rest[0])
    ensures PackageAfter(" " + ("install" + (" " + (pkg + rest)))) == Some(pkg)
  {
    var name := pkg + rest;
    var gap := " " + name;
    var word := "install" + gap;
    var s := " " + word;
    assert s[1..] == word && word[0] == 'i' && word[7..] == gap && gap[1..] == name && name[0] == pkg[0];
    DropBlanksAt(s);
    DropBlanksAt(gap);
    TokenOf(pkg, rest);
  }

  lemma {:induction false} FirstKeyword(s: string, keywords: seq<string>, j: nat)
    requires j < |keywords| && HasPrefix(s, keywords[j]) && PackageAfter(s[|keywords[j]|..]).Some?
    requires forall k :: 0 <= k < j ==> !HasPrefix(s, keywords[k])
    ensures KeywordAt(s, 0, keywords) == PackageAfter(s[|keywords[j]|..])
    decreases j
  {
    assert s[0..] == s;
    if j > 0 {
      assert !HasPrefix(s, keywords[0]);
      assert forall k :: 0 <= k < |keywords[1..]| ==> keywords[1..][k] == keywords[k + 1];
      FirstKeyword(s, keywords[1..], j - 1);
    }
  }

  /** The commands of the dnf family name their package to the pattern. */
  lemma CommandIsFound(pm: string, pkg: string, rest: string)
    requires pm in ["dnf", "tdnf", "zypper"]
    requires pkg != "" && IsAlnum(pkg[0]) && forall k :: 0 <= k < |pkg| ==> IsTokenChar(pkg[k])
    requires rest == "" || !IsTokenChar(rest[0])
    ensures FindInstall(pm + (" " + ("install" + (" " + (pkg + rest))))) == Some(pkg)
  {
    var after := " " + ("install" + (" " + (pkg + rest)));
    var s := pm + after;
    assert s[|pm|..] == after && s[0] == pm[0];
    PackageAfterInstall(pkg, rest);
    var j := if pm == "dnf" then 2 else if pm == "tdnf" then 4 else 5;
    assert KEYWORDS[0][0] == 'a' && KEYWORDS[1][0] == 'a' && KEYWORDS[2][0] == 'd' && KEYWORDS[3][0] == 'y'
      && KEYWORDS[4][0] == 't';
    assert KEYWORDS[j] == pm;
    FirstKeyword(s, KEYWORDS, j);
  }

  // ----- idempotence

  /** The tail of a hint starts with `&&` and is already trimmed. */
  lemma TailShape(hint: string)
    ensures Tail(hint).Some? ==> HasPrefix(Tail(hint).value, "&&") && TrimSpace(Tail(hint).value) == Tail(hint).value
  {
    IndexMeaning(hint, "&&");
    if Index(hint, "&&").Some? {
      var rest := hint[Index(hint, "&&").value..];
      assert rest[0] == '&' && rest[1] == '&' && !IsSpace('&');
      TrimSpaceShape(rest);
      var tail := TrimSpace(rest);
      assert |tail| >= 2 && tail[0] == rest[0] && tail[1] == rest[1];
    }
  }

  /** A prefix without ampersands does not hide or add a tail. */
  lemma TailOf(prefix: string, tail: string)
    requires '&' !in prefix && HasPrefix(tail, "&&")
    ensures Index(prefix + tail, "&&") == Some(|prefix|)
  {
    var s := prefix + tail;
    assert s[|prefix|..] == tail;
    forall k | 0 <= k < |prefix| ensures !HasPrefix(s[k..], "&&") {
      assert s[k..][0] == prefix[k];
    }
    IndexIs(s, "&&", |prefix|);
  }

  /** The rewrites that carry the tail over: `head`, the package, and the tail. */
  function Rewrite(head: string, hint: string): string {
    match FindInstall(hint)
    case Some(pkg) => WithTail(head + pkg, hint)
    case None => hint
  }

  lemma TailCarried(prefix: string, tail: string)
    requires '&' !in prefix && HasPrefix(tail, "&&") && TrimSpace(tail) == tail
    ensures Tail(prefix + " " + tail) == Some(tail)
  {
    TailOf(prefix + " ", tail);
    assert (prefix + " " + tail)[|prefix + " "|..] == tail;
  }

  lemma NoTail(prefix: string)
    requires '&' !in prefix
    ensures Tail(prefix) == None
  {
    IndexMeaning(prefix, "&&");
    forall k | 0 <= k <= |prefix| ensures !HasPrefix(prefix[k..], "&&") {
      assert k < |prefix| ==> prefix[k..][0] == prefix[k];
    }
  }

  lemma PackageShape(head: string, hint: string)
    requires '&' !in head && FindInstall(hint).Some?
    ensures var pkg := FindInstall(hint).value;
      pkg != "" && IsAlnum(pkg[0]) && (forall k :: 0 <= k < |pkg| ==> IsTokenChar(pkg[k])) && '&' !in head + pkg
  {
    FoundIsToken(hint, 0);
  }

  lemma RewriteTwice(head: string, pkg: string, tail: string)
    requires QuietHead(head) && '&' !in head + pkg && (forall k :: 0 <= k < |pkg| ==> IsTokenChar(pkg[k]))
    requires HasPrefix(tail, "&&") && TrimSpace(tail) == tail
    ensures Rewrite(head, head + pkg + " " + tail) == head + pkg + " " + tail <==>
      FindInstall(tail) == None || FindInstall(tail) == Some(pkg)
  {
    TailCarried(head + pkg, tail);
    OnlyTailMatches(head, pkg, tail);
    if FindInstall(tail).Some? {
      SameTail(head, FindInstall(tail).value, pkg, tail);
    }
  }

  lemma SameTail(head: string, p: string, q: string, tail: string)
    ensures head + p + " " + tail == head + q + " " + tail <==> p == q
  {
    var a, b := head + p + " " + tail, head + q + " " + tail;
    if a == b {
      assert |p| == |q|;
      assert p == a[|head|..|head| + |p|] && q == b[|head|..|head| + |q|];
    }
  }

  lemma OnlyTailMatches(head: string, pkg: string, tail: string)
    requires QuietHead(head) && HasPrefix(tail, "&&")
    requires forall k :: 0 <= k < |pkg| ==> IsTokenChar(pkg[k])
    ensures FindInstall(head + pkg + " " + tail) == FindInstall(tail)
  {
    var q := head + pkg + " ";
    forall e | 0 <= e < |q| && IsBlank(q[e]) ensures BadBlank(q + tail, e) {
      if e >= |head| {
        assert e == |q| - 1 && (q + tail)[e + 1] == tail[0] == '&';
      }
    }
    MatchesSkipPrefix(q, tail, 0);
  }

  lemma {:induction false} WordsWithoutAmpersand(ws: seq<string>)
    requires forall k :: 0 <= k < |ws| ==> '&' !in ws[k]
    ensures '&' !in Words(ws)
  {
    if ws != [] {
      WordsWithoutAmpersand(ws[..|ws| - 1]);
    }
  }

  lemma PacmanApkHead(pm: string) returns (head: string)
    requires pm == "pacman" || pm == "apk"
    ensures QuietHead(head) && '&' !in head
    ensures forall pkg :: Words(TO_FIX) + InstallCommand(pm, pkg) == head + pkg
  {
    var ws := if pm == "pacman" then ["pacman", "-S"] else ["apk", "add"];
    head := Words(TO_FIX) + Words(ws);
    assert forall k :: 0 <= k < |ws| ==> Quiet(ws[k]) && '&' !in ws[k];
    ToFixIsQuiet();
    WordsAreQuietHead(ws);
    WordsWithoutAmpersand(ws);
    forall pkg ensures Words(TO_FIX) + InstallCommand(pm, pkg) == head + pkg {
      assert Words(TO_FIX) + (Words(ws) + pkg) == head + pkg;
    }
  }

  lemma DistroIsRewrite(hint: string, pm: string, head: string)
    requires forall pkg :: Words(TO_FIX) + InstallCommand(pm, pkg) == head + pkg
    ensures DistroFix(hint, pm) == Rewrite(head, hint)
  {
    if FindInstall(hint).Some? {
      SameHead(Words(TO_FIX) + InstallCommand(pm, FindInstall(hint).value), head, FindInstall(hint).value, hint);
    }
  }

  lemma SameHead(command: string, head: string, pkg: string, hint: string)
    requires command == head + pkg
    ensures WithTail(command, hint) == WithTail(head + pkg, hint)
  {
  }

  lemma Reassociate(h: string, p: string, b: string, w: string, pkg: string, rest: string)
    ensures h + ((p + b + w + b) + pkg) + rest == h + (p + (b + (w + (b + (pkg + rest)))))
  {
    assert (p + b + w + b) + pkg + rest == p + (b + (w + (b + (pkg + rest)))) by {
      assert p + b + w + b + pkg + rest == p + b + w + b + (pkg + rest);
      assert p + b + w + (b + (pkg + rest)) == p + b + w + b + (pkg + rest);
      assert p + b + (w + (b + (pkg + rest))) == p + b + w + (b + (pkg + rest));
      assert p + (b + (w + (b + (pkg + rest)))) == p + b + (w + (b + (pkg + rest)));
    }
    assert h + ((p + b + w + b) + pkg) + rest == h + ((p + b + w + b) + pkg + rest);
  }

  /** What `WithTail` appends. */
  function Carried(hint: string): string {
    match Tail(hint)
    case Some(tail) => " " + tail
    case None => ""
  }

  lemma InstallCommandShape(pm: string, pkg: string)
    requires pm in ["dnf", "tdnf", "zypper"]
    ensures InstallCommand(pm, pkg) == (pm + " " + "install" + " ") + pkg
  {
    InstallWords(pm);
  }

  /** The dnf-family form of a hint: the words before the command, the command, and what is carried over. */
  lemma CommandShape(head: string, pm: string, pkg: string, hint: string)
    requires pm in ["dnf", "tdnf", "zypper"]
    ensures WithTail(head + InstallCommand(pm, pkg), hint) ==
      head + (pm + (" " + ("install" + (" " + (pkg + Carried(hint))))))
  {
    InstallCommandShape(pm, pkg);
    Reassociate(head, pm, " ", "install", pkg, Carried(hint));
  }

  lemma DistroShape(hint: string, pm: string)
    requires pm in ["dnf", "tdnf", "zypper"] && FindInstall(hint).Some?
    ensures DistroFix(hint, pm) ==
      Words(TO_FIX) + (pm + (" " + ("install" + (" " + (FindInstall(hint).value + Carried(hint))))))
  {
    var pkg := FindInstall(hint).value;
    CommandShape(Words(TO_FIX), pm, pkg, hint);
  }

  lemma InstallWords(pm: string)
    ensures Words([pm, "install"]) == pm + " " + "install" + " "
  {
    assert [pm, "install"][..1] == [pm] && [pm][..0] == [];
    assert Words([pm]) == Words([pm][..0]) + pm + " ";
  }

  lemma ToFixIsQuiet()
    ensures QuietHead(Words(TO_FIX)) && '&' !in Words(TO_FIX)
  {
    assert forall k :: 0 <= k < |TO_FIX| ==> Quiet(TO_FIX[k]) && '&' !in TO_FIX[k];
    WordsAreQuietHead(TO_FIX);
    WordsWithoutAmpersand(TO_FIX);
  }

  lemma DistroFound(pm: string, pkg: string, rest: string)
    requires pm in ["dnf", "tdnf", "zypper"] && QuietHead(Words(TO_FIX))
    requires pkg != "" && IsAlnum(pkg[0]) && forall k :: 0 <= k < |pkg| ==> IsTokenChar(pkg[k])
    requires rest == "" || !IsTokenChar(rest[0])
    ensures FindInstall(Words(TO_FIX) + (pm + (" " + ("install" + (" " + (pkg + rest)))))) == Some(pkg)
  {
    var q, u := Words(TO_FIX), pm + (" " + ("install" + (" " + (pkg + rest))));
    assert TO_FIX[..1] == ["to"];
    assert q[|q| - 1] == ' ';
    forall e | 0 <= e < |q| && IsBlank(q[e]) ensures BadBlank(q + u, e) {
      assert (q + u)[e - 1] == q[e - 1];
    }
    MatchesSkipPrefix(q, u, 0);
    CommandIsFound(pm, pkg, rest);
  }

  /** A head without an ampersand leaves the tail that is carried over as it was. */
  lemma WithTailKeepsTail(head: string, hint: string)
    requires '&' !in head
    ensures Tail(WithTail(head, hint)) == Tail(hint)
  {
    TailShape(hint);
    match Tail(hint)
    case Some(tail) => TailCarried(head, tail);
    case None => NoTail(head);
  }

  lemma DistroTail(hint: string, pm: string, pkg: string)
    requires pm in ["dnf", "tdnf", "zypper"] && FindInstall(hint) == Some(pkg)
    requires '&' !in Words(TO_FIX) && '&' !in pkg
    ensures Tail(DistroFix(hint, pm)) == Tail(hint)
  {
    var head := Words(TO_FIX);
    CommandHasNoAmpersand(pm, pkg);
    WithTailKeepsTail(head + InstallCommand(pm, pkg), hint);
  }

  lemma CommandHasNoAmpersand(pm: string, pkg: string)
    requires pm in ["dnf", "tdnf", "zypper"] && '&' !in pkg
    ensures '&' !in InstallCommand(pm, pkg)
  {
    InstallWords(pm);
    assert '&' !in pm;
  }
}
