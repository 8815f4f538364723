/**
 Strings as Go's `strings` package treats them, as far as the modelled code uses it.

 A string is a sequence of characters. Case mapping covers ASCII and the few other letters whose upper
 or lower case is ASCII, so that comparing a mapped string with an ASCII word gives what Go gives.

 - HasPrefix, Contains: strings.HasPrefix, strings.Contains
 - ToUpper, ToLower: strings.ToUpper, strings.ToLower
 - IsSpace, TrimSpace: unicode.IsSpace, strings.TrimSpace; TrimSpaceMeaning says which part is kept
 - Index: strings.Index; IndexMeaning says that it is the first occurrence
 - Mentions: a word occurs in any case; MentionsIff: which is what looking for it in the lower-cased string finds
 - Less: the order of strings under `<`, a strict total order; LessIff: which is the one of the first difference
 */
module Text {
  import opened Wrappers

  predicate HasPrefix(s: string, prefix: string) {
    prefix <= s
  }

  predicate Contains(s: string, sub: string) {
    exists i :: 0 <= i <= |s| && HasPrefix(s[i..], sub)
  }

  function ToUpperChar(c: char): char {
    if 'a' <= c <= 'z' then (c as int - 32) as char
    else if c == '\U{131}' then 'I'
    else if c == '\U{17F}' then 'S'
    else c
  }

  function ToLowerChar(c: char): char {
    if 'A' <= c <= 'Z' then (c as int + 32) as char
    else if c == '\U{130}' then 'i'
    else if c == '\U{212A}' then 'k'
    else c
  }

  function ToUpper(s: string): (r: string)
    ensures |r| == |s| && forall i :: 0 <= i < |s| ==> r[i] == ToUpperChar(s[i])
  {
    seq(|s|, i requires 0 <= i < |s| => ToUpperChar(s[i]))
  }

  function ToLower(s: string): (r: string)
    ensures |r| == |s| && forall i :: 0 <= i < |s| ==> r[i] == ToLowerChar(s[i])
  {
    seq(|s|, i requires 0 <= i < |s| => ToLowerChar(s[i]))
  }

  /** unicode.IsSpace. */
  predicate IsSpace(c: char) {
    || '\t' <= c <= '\r' || c == ' ' || c == '\U{85}' || c == '\U{A0}' || c == '\U{1680}'
    || '\U{2000}' <= c <= '\U{200A}' || c == '\U{2028}' || c == '\U{2029}' || c == '\U{202F}'
    || c == '\U{205F}' || c == '\U{3000}'
  }

  function TrimLeft(s: string): string {
    if s != [] && IsSpace(s[0]) then TrimLeft(s[1..]) else s
  }

  function TrimRight(s: string): string {
    if s != [] && IsSpace(s[|s| - 1]) then TrimRight(s[..|s| - 1]) else s
  }

  function TrimSpace(s: string): string {
    TrimRight(TrimLeft(s))
  }

  lemma {:induction false} TrimRightShape(s: string)
    ensures TrimRight(s) <= s
    ensures TrimRight(s) != [] ==> !IsSpace(TrimRight(s)[|TrimRight(s)| - 1])
    ensures forall i :: |TrimRight(s)| <= i < |s| ==> IsSpace(s[i])
  {
    if s != [] && IsSpace(s[|s| - 1]) { TrimRightShape(s[..|s| - 1]); }
  }

  lemma {:induction false} TrimLeftShape(s: string)
    ensures TrimLeft(s) != [] ==> !IsSpace(TrimLeft(s)[0])
    ensures s != [] && !IsSpace(s[0]) ==> TrimLeft(s) == s
  {
    if s != [] && IsSpace(s[0]) { TrimLeftShape(s[1..]); }
  }

  /** Trimming a string that starts with a visible character keeps that start, and twice is once. */
  lemma TrimSpaceShape(s: string)
    requires s != [] && !IsSpace(s[0])
    ensures TrimSpace(s) <= s && TrimSpace(s) != []
    ensures TrimSpace(TrimSpace(s)) == TrimSpace(s)
    ensures forall i :: |TrimSpace(s)| <= i < |s| ==> IsSpace(s[i])
  {
    TrimLeftShape(s);
    TrimRightShape(s);
    TrimLeftShape(TrimRight(s));
  }

  /** `s[i..j]` is what stands between the blanks at either end. */
  ghost predicate Between(s: string, i: nat, j: nat) {
    && i <= j <= |s|
    && (forall k :: 0 <= k < i || j <= k < |s| ==> IsSpace(s[k]))
    && (i < j ==> !IsSpace(s[i]) && !IsSpace(s[j - 1]))
  }

  ghost predicate Trimmed(s: string, r: string) {
    exists i: nat, j: nat :: Between(s, i, j) && r == s[i..j]
  }

  lemma {:induction false} TrimLeftIsSuffix(s: string) returns (i: nat)
    ensures i <= |s| && TrimLeft(s) == s[i..] && forall k :: 0 <= k < i ==> IsSpace(s[k])
  {
    i := 0;
    if s != [] && IsSpace(s[0]) {
      var n := TrimLeftIsSuffix(s[1..]);
      i := n + 1;
      assert forall k :: 1 <= k < i ==> s[k] == s[1..][k - 1];
    }
  }

  /** Trimming leaves exactly what stands between the blanks. */
  lemma {:induction false} TrimSpaceMeaning(s: string)
    ensures Trimmed(s, TrimSpace(s))
  {
    var i := TrimLeftIsSuffix(s);
    var rest, r := TrimLeft(s), TrimSpace(s);
    TrimLeftShape(s);
    TrimRightShape(rest);
    var j := i + |r|;
    assert forall k :: i <= k < |s| ==> s[k] == rest[k - i];
    assert r == rest[..|r|] == s[i..j];
    assert r != [] ==> r[0] == rest[0] && r[|r| - 1] == s[j - 1];
    assert Between(s, i, j);
  }

  /** The first index at which `sub` occurs in `s`. */
  function Index(s: string, sub: string): (r: Option<nat>)
    ensures r.Some? ==> r.value <= |s|
  {
    if HasPrefix(s, sub) then Some(0)
    else if s == [] then None
    else
      match Index(s[1..], sub)
      case Some(i) => Some(i + 1)
      case None => None
  }

  /** `sub` occurs in `s` at `i` and nowhere before. */
  ghost predicate FirstAt(s: string, sub: string, i: nat) {
    i <= |s| && HasPrefix(s[i..], sub) && forall k :: 0 <= k < i ==> !HasPrefix(s[k..], sub)
  }

  lemma {:induction false} IndexMeaning(s: string, sub: string)
    ensures Index(s, sub).Some? ==> FirstAt(s, sub, Index(s, sub).value)
    ensures Index(s, sub) == None <==> !Contains(s, sub)
  {
    assert s[0..] == s;
    if !HasPrefix(s, sub) && s != [] {
      IndexMeaning(s[1..], sub);
      assert forall k :: 1 <= k <= |s| ==> s[k..] == s[1..][k - 1..];
      if Contains(s, sub) {
        var k :| 0 <= k <= |s| && HasPrefix(s[k..], sub);
        assert HasPrefix(s[1..][k - 1..], sub);
      }
    }
  }

  /** Being first determines the index. */
  lemma IndexIs(s: string, sub: string, i: nat)
    requires FirstAt(s, sub, i)
    ensures Index(s, sub) == Some(i)
  {
    IndexMeaning(s, sub);
  }

  /** `c` is this lower-case letter in either case, or one of the two other letters that map to it. */
  predicate Spells(c: char, letter: char) {
    || c == letter
    || ('A' <= c <= 'Z' && c as int + 32 == letter as int)
    || (c == '\U{130}' && letter == 'i') || (c == '\U{212A}' && letter == 'k')
  }

  /** `word` stands in `s` at `i`, in any case. */
  predicate SpelledAt(s: string, i: nat, word: string) {
    i + |word| <= |s| && forall j :: 0 <= j < |word| ==> Spells(s[i + j], word[j])
  }

  predicate Mentions(s: string, word: string) {
    exists i: nat :: i <= |s| && SpelledAt(s, i, word)
  }

  /** Nothing maps to another letter. */
  predicate LowerCase(word: string) {
    forall c :: c in word ==> !('A' <= c <= 'Z') && c != '\U{130}' && c != '\U{212A}'
  }

  /** Looking for a word in the lower-cased string is looking for it in any case. */
  lemma {:induction false} MentionsIff(s: string, word: string)
    requires LowerCase(word)
    ensures Contains(ToLower(s), word) <==> Mentions(s, word)
  {
    var l := ToLower(s);
    forall i: nat | i <= |s| ensures HasPrefix(l[i..], word) <==> SpelledAt(s, i, word) {
      SpelledIff(s, i, word);
    }
    if Contains(l, word) {
      var i :| 0 <= i <= |l| && HasPrefix(l[i..], word);
      assert SpelledAt(s, i, word);
    }
    if Mentions(s, word) {
      var i: nat :| i <= |s| && SpelledAt(s, i, word);
      assert HasPrefix(l[i..], word);
    }
  }

  lemma SpelledIff(s: string, i: nat, word: string)
    requires LowerCase(word) && i <= |s|
    ensures HasPrefix(ToLower(s)[i..], word) <==> SpelledAt(s, i, word)
  {
    var l := ToLower(s);
    forall j | 0 <= j < |word| && i + |word| <= |s| ensures l[i..][j] == word[j] <==> Spells(s[i + j], word[j]) {
      assert word[j] in word && l[i..][j] == ToLowerChar(s[i + j]);
    }
    if i + |word| <= |s| && SpelledAt(s, i, word) {
      assert l[i..][..|word|] == word;
    }
  }

  /** The lexicographic order of Go strings. */
  predicate Less(a: string, b: string) {
    b != [] && (a == [] || a[0] < b[0] || (a[0] == b[0] && Less(a[1..], b[1..])))
  }

  /** `b` goes on where `a` ends, or has the greater character where they first differ. */
  ghost predicate Precedes(a: string, b: string) {
    || (|a| < |b| && b[..|a|] == a)
    || (exists n :: 0 <= n < |a| && n < |b| && a[..n] == b[..n] && a[n] < b[n])
  }

  lemma {:induction false} LessIff(a: string, b: string)
    ensures Less(a, b) <==> Precedes(a, b)
  {
    if a != [] && b != [] && a[0] == b[0] {
      LessIff(a[1..], b[1..]);
      if Precedes(a[1..], b[1..]) {
        PrecedesLonger(a, b);
      }
      if Precedes(a, b) {
        PrecedesShorter(a, b);
      }
    } else if a != [] && b != [] && a[0] < b[0] {
      assert a[..0] == b[..0];
    }
  }

  lemma PrecedesLonger(a: string, b: string)
    requires a != [] && b != [] && a[0] == b[0] && Precedes(a[1..], b[1..])
    ensures Precedes(a, b)
  {
    var s, t := a[1..], b[1..];
    if |s| < |t| && t[..|s|] == s {
      assert forall k :: 0 < k < |a| ==> b[k] == t[..|s|][k - 1];
      assert b[..|a|] == a;
    } else {
      var n :| 0 <= n < |s| && n < |t| && s[..n] == t[..n] && s[n] < t[n];
      assert forall k :: 0 < k <= n ==> a[k] == s[..n][k - 1] == t[..n][k - 1] == b[k];
      assert a[..n + 1] == b[..n + 1] && a[n + 1] < b[n + 1];
    }
  }

  lemma PrecedesShorter(a: string, b: string)
    requires a != [] && b != [] && a[0] == b[0] && Precedes(a, b)
    ensures Precedes(a[1..], b[1..])
  {
    var s, t := a[1..], b[1..];
    if |a| < |b| && b[..|a|] == a {
      assert t[..|s|] == b[..|a|][1..] == s;
    } else {
      var n :| 0 <= n < |a| && n < |b| && a[..n] == b[..n] && a[n] < b[n];
      assert s[..n - 1] == a[..n][1..] == b[..n][1..] == t[..n - 1];
      assert s[n - 1] < t[n - 1];
    }
  }

  lemma {:induction false} LessIrreflexive(a: string)
    ensures !Less(a, a)
  {
    if a != [] { LessIrreflexive(a[1..]); }
  }

  lemma {:induction false} LessTransitive(a: string, b: string, c: string)
    requires Less(a, b) && Less(b, c)
    ensures Less(a, c)
  {
    if a != [] && a[0] == b[0] == c[0] { LessTransitive(a[1..], b[1..], c[1..]); }
  }

  lemma {:induction false} LessTotal(a: string, b: string)
    ensures a == b || Less(a, b) || Less(b, a)
  {
    if a != [] && b != [] && a[0] == b[0] {
      LessTotal(a[1..], b[1..]);
      assert a == [a[0]] + a[1..] && b == [b[0]] + b[1..];
    }
  }
}
