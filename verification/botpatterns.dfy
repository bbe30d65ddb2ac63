/**
 * `hasBotLikeUsername`, which the OAuth and the alternative service define identically:
 * six regular expressions, any one of which marks a username as bot-like.
 *
 *   /bot/i  /spam/i  /fake/i  /auto/i  /[0-9]{4,}/  /[a-z]{1,2}[0-9]{3,}/
 *
 * The ghost predicates state what each expression matches, quantifying over every start
 * position and every repetition count the expression allows; `HasBotLikeUsername` decides the
 * same thing with fixed-width windows and is proved equivalent to them.
 */
module BotPatterns {
  import opened Strings

  /** ECMAScript compares characters under the `i` flag by their canonical (upper-case) form.
      A non-ASCII character never canonicalises onto an ASCII one, so against the ASCII words
      here only ASCII letters fold; every other character stands for itself. */
  function Canonical(c: char): char {
    if IsLowerAscii(c) then (c as int - 32) as char else c
  }

  /** `word` matches case-insensitively at index `i` of `u`. */
  predicate WordAt(u: string, word: string, i: nat) {
    i + |word| <= |u| && forall k :: 0 <= k < |word| ==> Canonical(u[i + k]) == Canonical(word[k])
  }

  /** `n` digits in a row start at index `i` of `u`. */
  predicate DigitRunAt(u: string, i: nat, n: nat) {
    i + n <= |u| && forall k :: i <= k < i + n ==> IsDigit(u[k])
  }

  /** `a` lower-case ASCII letters, then `n` digits, start at index `i` of `u`. */
  predicate LettersThenDigitsAt(u: string, i: nat, a: nat, n: nat) {
    && i + a + n <= |u|
    && (forall k :: i <= k < i + a ==> IsLowerAscii(u[k]))
    && DigitRunAt(u, i + a, n)
  }

  /** `/word/i` finds a match somewhere in `u`. */
  ghost predicate MatchesWord(u: string, word: string) {
    exists i: nat :: WordAt(u, word, i)
  }

  /** `/[0-9]{4,}/` finds a match: four or more consecutive digits. */
  ghost predicate MatchesDigitRun(u: string) {
    exists i: nat, n: nat :: n >= 4 && DigitRunAt(u, i, n)
  }

  /** `/[a-z]{1,2}[0-9]{3,}/` finds a match: one or two lower-case ASCII letters, then three or
      more digits. There is no `i` flag, so upper-case letters do not count. */
  ghost predicate MatchesLettersThenDigits(u: string) {
    exists i: nat, a: nat, n: nat :: 1 <= a <= 2 && n >= 3 && LettersThenDigitsAt(u, i, a, n)
  }

  /** `botPatterns.some(pattern => pattern.test(username))`. */
  ghost predicate BotLike(u: string) {
    || MatchesWord(u, "bot") || MatchesWord(u, "spam") || MatchesWord(u, "fake") || MatchesWord(u, "auto")
    || MatchesDigitRun(u) || MatchesLettersThenDigits(u)
  }

  predicate IsLowerWord(word: string) {
    forall k :: 0 <= k < |word| ==> IsLowerAscii(word[k])
  }

  lemma FoldAgreesWithCanonical(c: char, w: char)
    requires IsLowerAscii(w)
    ensures LowerAscii(c) == w <==> Canonical(c) == Canonical(w)
  {
  }

  lemma OccursAtIffWordAt(u: string, word: string, i: nat)
    requires IsLowerWord(word)
    ensures OccursAt(LowerAsciiString(u), word, i) <==> WordAt(u, word, i)
  {
    var l := LowerAsciiString(u);
    if i + |word| <= |u| {
      forall k | 0 <= k < |word|
        ensures l[i + k] == word[k] <==> Canonical(u[i + k]) == Canonical(word[k])
      {
        FoldAgreesWithCanonical(u[i + k], word[k]);
      }
      assert l[i..i + |word|] == word <==> forall k :: 0 <= k < |word| ==> l[i + k] == word[k];
    }
  }

  /** A word of two or more letters cannot match where its first two letters do not appear
      side by side. */
  lemma NoWordWithoutPair(u: string, word: string)
    requires |word| >= 2
    requires forall i :: 0 <= i < |u| - 1 ==> !PairAt(u, i, word[0], word[1])
    ensures !MatchesWord(u, word)
  {
    if MatchesWord(u, word) {
      var i: nat :| WordAt(u, word, i);
      assert Canonical(u[i + 0]) == Canonical(word[0]);
      assert Canonical(u[i + 1]) == Canonical(word[1]);
      assert PairAt(u, i, word[0], word[1]);
    }
  }

  /** `x` then `y`, compared case-insensitively, at index `i` of `u`. */
  predicate PairAt(u: string, i: int, x: char, y: char) {
    0 <= i < |u| - 1 && Canonical(u[i]) == Canonical(x) && Canonical(u[i + 1]) == Canonical(y)
  }

  /** `/word/i.test(u)` for a lower-case ASCII word: lower-case the name, then search. */
  function ContainsWord(u: string, word: string): (b: bool)
    requires IsLowerWord(word)
    ensures b <==> MatchesWord(u, word)
  {
    var b := Contains(LowerAsciiString(u), word);
    assert b ==> MatchesWord(u, word) by {
      if b {
        var i: nat :| OccursAt(LowerAsciiString(u), word, i);
        OccursAtIffWordAt(u, word, i);
      }
    }
    assert MatchesWord(u, word) ==> b by {
      if MatchesWord(u, word) {
        var i: nat :| WordAt(u, word, i);
        OccursAtIffWordAt(u, word, i);
      }
    }
    b
  }

  /** Four digits in a row somewhere in `u`. */
  predicate HasFourDigits(u: string) {
    exists i: nat | i <= |u| :: DigitRunAt(u, i, 4)
  }

  /** A lower-case ASCII letter followed by three digits somewhere in `u`. */
  predicate HasLetterThenThreeDigits(u: string) {
    exists i: nat | i <= |u| :: LettersThenDigitsAt(u, i, 1, 3)
  }

  lemma FourDigitsIffDigitRun(u: string)
    ensures HasFourDigits(u) <==> MatchesDigitRun(u)
  {
    if MatchesDigitRun(u) {
      var i: nat, n: nat :| n >= 4 && DigitRunAt(u, i, n);
      assert DigitRunAt(u, i, 4);
    }
  }

  lemma LetterWindowIffLettersThenDigits(u: string)
    ensures HasLetterThenThreeDigits(u) <==> MatchesLettersThenDigits(u)
  {
    if MatchesLettersThenDigits(u) {
      var i: nat, a: nat, n: nat :| 1 <= a <= 2 && n >= 3 && LettersThenDigitsAt(u, i, a, n);
      var j: nat := i + a - 1;
      assert LettersThenDigitsAt(u, j, 1, 3);
    }
  }

  /** `hasBotLikeUsername`: true exactly when one of the six patterns matches. */
  function HasBotLikeUsername(u: string): (b: bool)
    ensures b <==> BotLike(u)
  {
    FourDigitsIffDigitRun(u);
    LetterWindowIffLettersThenDigits(u);
    || ContainsWord(u, "bot") || ContainsWord(u, "spam") || ContainsWord(u, "fake") || ContainsWord(u, "auto")
    || HasFourDigits(u) || HasLetterThenThreeDigits(u)
  }
}
