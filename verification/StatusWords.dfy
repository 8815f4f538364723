/** How `Certify` reads the status words of a diff: which words mean what, in any case, and where a token ends. */
module StatusWords {
  import opened Certify
  import opened Text
  import opened Wrappers

  /** `c` is this capital letter in either case, or one of the two other letters that map to it. */
  predicate Capital(c: char, letter: char) {
    || c == letter
    || ('a' <= c <= 'z' && c as int - 32 == letter as int)
    || (c == '\U{131}' && letter == 'I') || (c == '\U{17F}' && letter == 'S')
  }

  predicate SpelledOut(s: string, word: string) {
    |s| == |word| && forall k :: 0 <= k < |word| ==> Capital(s[k], word[k])
  }

  /** Between the blanks at its ends, `s` is this word, in any case. */
  ghost predicate IsWord(s: string, word: string) {
    exists i: nat, j: nat :: Between(s, i, j) && SpelledOut(s[i..j], word)
  }

  predicate Capitals(word: string) {
    word != "" && forall k :: 0 <= k < |word| ==> 'A' <= word[k] <= 'Z'
  }

  lemma SpelledOutIff(s: string, word: string)
    requires Capitals(word)
    ensures ToUpper(s) == word <==> SpelledOut(s, word)
  {
    if SpelledOut(s, word) {
      assert ToUpper(s) == word;
    }
  }

  lemma OneMiddle(s: string, i: nat, j: nat, i': nat, j': nat)
    requires Between(s, i, j) && Between(s, i', j')
    ensures s[i..j] == s[i'..j']
  {
    if i < j || i' < j' {
      assert i == i' && j == j';
    }
  }

  lemma {:induction false} WordIff(s: string, word: string)
    requires Capitals(word)
    ensures ToUpper(TrimSpace(s)) == word <==> IsWord(s, word)
  {
    TrimSpaceMeaning(s);
    SpelledOutIff(TrimSpace(s), word);
    var i: nat, j: nat :| Between(s, i, j) && TrimSpace(s) == s[i..j];
    if IsWord(s, word) {
      var i': nat, j': nat :| Between(s, i', j') && SpelledOut(s[i'..j'], word);
      OneMiddle(s, i, j, i', j');
    }
  }

  /** The severity of a status, by the word that it is. */
  lemma {:induction false} SeverityMeaning(s: string)
    ensures StatusSeverity(s) == 3 <==> IsWord(s, "CRIT") || IsWord(s, "CRITICAL") || IsWord(s, "FAIL")
    ensures StatusSeverity(s) == 2 <==> IsWord(s, "WARN") || IsWord(s, "WARNING")
    ensures StatusSeverity(s) == 1 <==> IsWord(s, "UNKNOWN") || IsWord(s, "INFO")
  {
    WordIff(s, "CRIT");
    WordIff(s, "CRITICAL");
    WordIff(s, "FAIL");
    WordIff(s, "WARN");
    WordIff(s, "WARNING");
    WordIff(s, "UNKNOWN");
    WordIff(s, "INFO");
  }

  /** A token is the word for a check that is not there, in any case. */
  lemma {:induction false} AbsentMeaning(token: string)
    ensures IsAbsent(token) <==> SpelledOut(token, "ABSENT")
  {
    SpelledOutIff(token, "ABSENT");
  }

  /** The first token starts behind the leading blanks and ends before the next blank, or with the text. */
  ghost predicate Token(s: string, from: nat, to: nat) {
    exists end: nat :: Between(s, from, end) && from <= to <= end && ' ' !in s[from..to] && (to == end || s[to] == ' ')
  }

  lemma BlankIndex(t: string) returns (n: nat)
    ensures n <= |t| && ' ' !in t[..n] && (n == |t| || t[n] == ' ')
    ensures n == match Index(t, " ") case Some(i) => i case None => |t|
  {
    IndexMeaning(t, " ");
    n := match Index(t, " ") case Some(i) => i case None => |t|;
    forall k | 0 <= k < |t| ensures HasPrefix(t[k..], " ") <==> t[k] == ' ' {
      assert t[k..][0] == t[k];
    }
  }

  lemma {:induction false} FirstTokenMeaning(s: string)
    ensures exists from: nat, to: nat :: Token(s, from, to) && FirstToken(s) == s[from..to]
  {
    TrimSpaceMeaning(s);
    var i: nat, j: nat :| Between(s, i, j) && TrimSpace(s) == s[i..j];
    var t := s[i..j];
    var n := BlankIndex(t);
    assert t[..n] == s[i..i + n];
    assert i + n < j ==> s[i + n] == t[n];
    assert Token(s, i, i + n);
    assert FirstToken(s) == t[..n];
  }
}
