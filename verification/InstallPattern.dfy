/**
 What the matcher of `InstallHints` finds, said without running it: the leftmost place where the pattern
 `rePkgInstall` fits, and there the longest package name.

 - Names, Installs, KeywordFits and Fits follow the parts of the pattern, from the package name outwards: blanks and a
   name, `install` before them, one of the keywords before that, and the start of a word.
 - NameIsFound, PackageIsInstalled, SomeKeyword and MatchFits: the matcher's parts succeed exactly where these fit.
 - OneKeyword and FitsOnce: at one place only one keyword and one name fit, so the order of alternatives in the
   pattern does not matter.
 - FindsLeftmostLongest: the search is exactly the declarative reading of the pattern.
 */
module InstallPattern {
  import opened InstallHints
  import opened Text
  import opened Wrappers

  /** The character classes of the pattern, by code. */
  predicate LetterOrDigit(c: char) {
    0x41 <= c as int <= 0x5A || 0x61 <= c as int <= 0x7A || 0x30 <= c as int <= 0x39
  }

  predicate NameChar(c: char) {
    LetterOrDigit(c) || c in {'.', '_', '+', '-'}
  }

  predicate Gap(c: char) {
    c as int in {0x09, 0x0A, 0x0C, 0x0D, 0x20}
  }

  predicate Blanks(s: string) {
    s != [] && forall k :: 0 <= k < |s| ==> Gap(s[k])
  }

  predicate PackageName(s: string) {
    s != [] && LetterOrDigit(s[0]) && forall k :: 0 <= k < |s| ==> NameChar(s[k])
  }

  /** `s` starts with blanks and this package name, which then ends. */
  ghost predicate Names(s: string, pkg: string) {
    exists b, rest :: s == b + (pkg + rest) && Blanks(b) && PackageName(pkg) && (rest == [] || !NameChar(rest[0]))
  }

  /** `s` starts with blanks, `install`, blanks and this package name. */
  ghost predicate Installs(s: string, pkg: string) {
    exists b, u :: s == b + u && Blanks(b) && HasPrefix(u, "install") && Names(u[7..], pkg)
  }

  /** `\b` before a letter. */
  predicate StartsWord(s: string, i: nat) {
    i <= |s| && (i == 0 || !(LetterOrDigit(s[i - 1]) || s[i - 1] == '_'))
  }

  /** The pattern fits at position `i` and captures `pkg`. */
  ghost predicate Fits(s: string, i: nat, pkg: string) {
    StartsWord(s, i) && KeywordFits(s[i..], ["apt-get", "apt", "dnf", "yum", "tdnf", "zypper"], pkg)
  }

  ghost predicate KeywordFits(s: string, keywords: seq<string>, pkg: string) {
    exists keyword :: keyword in keywords && HasPrefix(s, keyword) && Installs(s[|keyword|..], pkg)
  }

  /** The pattern fits nowhere between two positions. */
  ghost predicate FitsNowhere(s: string, from: nat, to: nat) {
    forall j: nat, pkg :: from <= j < to ==> !Fits(s, j, pkg)
  }

  // ----- the parts of the pattern

  lemma {:induction false} DropBlanksShape(s: string) returns (b: string)
    ensures s == b + DropBlanks(s) && (forall k :: 0 <= k < |b| ==> IsBlank(b[k]))
    ensures DropBlanks(s) == [] || !IsBlank(DropBlanks(s)[0])
    ensures b == [] <==> s == [] || !IsBlank(s[0])
  {
    if s != [] && IsBlank(s[0]) {
      var rest := DropBlanksShape(s[1..]);
      b := [s[0]] + rest;
      assert s == [s[0]] + s[1..];
    } else {
      b := [];
    }
  }

  lemma {:induction false} DropBlanksOf(b: string, s: string)
    requires (forall k :: 0 <= k < |b| ==> IsBlank(b[k])) && (s == [] || !IsBlank(s[0]))
    ensures DropBlanks(b + s) == s
  {
    if b == [] {
      assert b + s == s;
    } else {
      assert (b + s)[1..] == b[1..] + s;
      DropBlanksOf(b[1..], s);
    }
  }

  lemma {:induction false} TokenOfName(pkg: string, rest: string)
    requires (forall k :: 0 <= k < |pkg| ==> IsTokenChar(pkg[k])) && (rest == [] || !IsTokenChar(rest[0]))
    ensures Token(pkg + rest) == pkg
  {
    if pkg == [] {
      assert pkg + rest == rest;
    } else {
      assert (pkg + rest)[1..] == pkg[1..] + rest;
      TokenOfName(pkg[1..], rest);
    }
  }

  lemma {:induction false} NamedIsFound(s: string, pkg: string)
    requires Names(s, pkg)
    ensures s != [] && IsBlank(s[0]) && DropBlanks(s) != [] && IsAlnum(DropBlanks(s)[0]) && Token(DropBlanks(s)) == pkg
  {
    var b, rest :| s == b + (pkg + rest) && Blanks(b) && PackageName(pkg) && (rest == [] || !NameChar(rest[0]));
    assert (pkg + rest)[0] == pkg[0];
    DropBlanksOf(b, pkg + rest);
    TokenOfName(pkg, rest);
    assert s[0] == b[0];
  }

  lemma FoundIsNamed(s: string)
    requires s != [] && IsBlank(s[0]) && DropBlanks(s) != [] && IsAlnum(DropBlanks(s)[0])
    ensures Names(s, Token(DropBlanks(s)))
  {
    var b := DropBlanksShape(s);
    var name := DropBlanks(s);
    var pkg := Token(name);
    var rest := name[|pkg|..];
    assert IsTokenChar(name[0]);
    assert name == pkg + rest;
    assert Blanks(b) && PackageName(pkg);
    assert rest == [] || !IsTokenChar(rest[0]);
  }

  lemma NameIsFound(s: string, pkg: string)
    ensures Names(s, pkg) <==>
      s != [] && IsBlank(s[0]) && DropBlanks(s) != [] && IsAlnum(DropBlanks(s)[0]) && Token(DropBlanks(s)) == pkg
  {
    if Names(s, pkg) {
      NamedIsFound(s, pkg);
    } else if s != [] && IsBlank(s[0]) && DropBlanks(s) != [] && IsAlnum(DropBlanks(s)[0]) {
      FoundIsNamed(s);
    }
  }

  lemma PackageIsInstalled(s: string, pkg: string)
    ensures PackageAfter(s) == Some(pkg) <==> Installs(s, pkg)
  {
    if PackageAfter(s) == Some(pkg) {
      var b := DropBlanksShape(s);
      var u := DropBlanks(s);
      NameIsFound(u[7..], pkg);
      assert s == b + u && Blanks(b) && HasPrefix(u, "install") && Names(u[7..], pkg);
    }
    if Installs(s, pkg) {
      var b, u :| s == b + u && Blanks(b) && HasPrefix(u, "install") && Names(u[7..], pkg);
      assert u[0] == 'i';
      DropBlanksOf(b, u);
      NameIsFound(u[7..], pkg);
      assert s[0] == b[0];
    }
  }

  lemma {:induction false} SomeKeyword(s: string, i: nat, keywords: seq<string>)
    requires i <= |s|
    ensures KeywordAt(s, i, keywords) == None ==> forall pkg :: !KeywordFits(s[i..], keywords, pkg)
    ensures KeywordAt(s, i, keywords).Some? ==> KeywordFits(s[i..], keywords, KeywordAt(s, i, keywords).value)
  {
    if keywords != [] {
      var first := keywords[0];
      SomeKeyword(s, i, keywords[1..]);
      forall pkg ensures KeywordFits(s[i..], keywords, pkg) <==>
        KeywordFits(s[i..], keywords[1..], pkg) || (HasPrefix(s[i..], first) && Installs(s[i..][|first|..], pkg))
      {
        assert keywords == [first] + keywords[1..];
        assert first in keywords;
      }
      if HasPrefix(s[i..], first) {
        forall pkg ensures PackageAfter(s[i..][|first|..]) == Some(pkg) <==> Installs(s[i..][|first|..], pkg) {
          PackageIsInstalled(s[i..][|first|..], pkg);
        }
      }
    }
  }

  lemma MatchFits(s: string, i: nat)
    requires i <= |s|
    ensures forall pkg :: Fits(s, i, pkg) ==> MatchAt(s, i).Some?
    ensures MatchAt(s, i).Some? ==> Fits(s, i, MatchAt(s, i).value)
  {
    var at := KeywordAt(s, i, KEYWORDS);
    SomeKeyword(s, i, KEYWORDS);
    assert WordStart(s, i) <==> StartsWord(s, i);
    assert MatchAt(s, i) == if WordStart(s, i) then at else None;
  }

  lemma {:induction false} FitsNotHere(s: string, i: nat)
    requires i <= |s| && MatchAt(s, i) == None
    ensures FitsNowhere(s, i, i + 1)
  {
    MatchFits(s, i);
    forall j: nat, pkg | i <= j < i + 1 ensures !Fits(s, j, pkg) {
      assert j == i;
    }
  }

  ghost predicate LeftmostFit(s: string, i: nat, pkg: string) {
    Fits(s, i, pkg) && FitsNowhere(s, 0, i)
  }

  lemma {:induction false} FindFits(s: string, i: nat) returns (at: nat)
    requires i <= |s|
    ensures FindFrom(s, i) == None ==> FitsNowhere(s, i, |s| + 1)
    ensures FindFrom(s, i).Some? ==> Fits(s, at, FindFrom(s, i).value) && FitsNowhere(s, i, at)
    decreases |s| - i
  {
    MatchFits(s, i);
    at := i;
    if MatchAt(s, i) == None {
      FitsNotHere(s, i);
    }
    if MatchAt(s, i) == None && i < |s| {
      at := FindFits(s, i + 1);
    }
  }

  // ----- the whole pattern

  /** A keyword that a blank follows is the only one. */
  lemma OneKeyword(s: string, k: string, l: string)
    requires k in KEYWORDS && l in KEYWORDS && HasPrefix(s, k) && HasPrefix(s, l)
    requires |k| < |s| && IsBlank(s[|k|]) && |l| < |s| && IsBlank(s[|l|])
    ensures k == l
  {
    assert forall j :: 0 <= j < |k| ==> s[j] == k[j];
    assert forall j :: 0 <= j < |l| ==> s[j] == l[j];
    assert |k| == |l|;
    assert k == s[..|k|] == l;
  }

  /** At one position the pattern captures one name. */
  lemma {:induction false} FitsOnce(s: string, i: nat, p: string, q: string)
    requires Fits(s, i, p) && Fits(s, i, q)
    ensures p == q
  {
    var t := s[i..];
    var k :| k in KEYWORDS && HasPrefix(t, k) && Installs(t[|k|..], p);
    var l :| l in KEYWORDS && HasPrefix(t, l) && Installs(t[|l|..], q);
    BlankFollows(t, |k|, p);
    BlankFollows(t, |l|, q);
    OneKeyword(t, k, l);
  }

  lemma BlankFollows(t: string, n: nat, pkg: string)
    requires n <= |t| && Installs(t[n..], pkg)
    ensures n < |t| && IsBlank(t[n]) && PackageAfter(t[n..]) == Some(pkg)
  {
    PackageIsInstalled(t[n..], pkg);
  }

  lemma {:induction false} LeftmostIsUnique(s: string, i: nat, p: string, j: nat, q: string)
    requires LeftmostFit(s, i, p) && LeftmostFit(s, j, q)
    ensures i == j && p == q
  {
    assert i == j;
    FitsOnce(s, i, p, q);
  }

  /** The search returns a name exactly when the pattern fits somewhere, and then the name at the leftmost place. */
  lemma {:induction false} FindsLeftmostLongest(s: string, pkg: string)
    ensures FindInstall(s) == Some(pkg) <==> exists i: nat :: LeftmostFit(s, i, pkg)
    ensures FindInstall(s) == None <==> forall i: nat, other :: !Fits(s, i, other)
  {
    var at := FindFits(s, 0);
    if FindInstall(s).Some? {
      assert LeftmostFit(s, at, FindInstall(s).value);
      if i: nat :| LeftmostFit(s, i, pkg) {
        LeftmostIsUnique(s, i, pkg, at, FindInstall(s).value);
      }
    } else {
      forall i: nat, other ensures !Fits(s, i, other) {
        assert i > |s| ==> !Fits(s, i, other);
      }
    }
  }
}
