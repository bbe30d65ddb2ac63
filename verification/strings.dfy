/**
 * The JavaScript string primitives the importers and the classifier rely on:
 * `trim`, `split` on one character, `includes`, decimal `parseInt` and the
 * decimal rendering of an integer in a template literal.
 */
module Strings {
  import opened Options

  /** The code points ECMAScript counts as WhiteSpace or LineTerminator; `trim` and `parseInt` skip them. */
  predicate IsSpace(c: char) {
    || c == '\t' || c == '\n' || c == '\U{000B}' || c == '\U{000C}' || c == '\r' || c == ' '
    || c == '\U{00A0}' || c == '\U{1680}' || ('\U{2000}' <= c <= '\U{200A}')
    || c == '\U{2028}' || c == '\U{2029}' || c == '\U{202F}' || c == '\U{205F}'
    || c == '\U{3000}' || c == '\U{FEFF}'
  }

  predicate AllSpace(s: string, lo: int, hi: int)
    requires 0 <= lo <= hi <= |s|
  {
    forall k :: lo <= k < hi ==> IsSpace(s[k])
  }

  /** Drops the leading white space. */
  function TrimStart(s: string): (r: string)
    ensures |r| <= |s| && r == s[|s| - |r|..]
    ensures AllSpace(s, 0, |s| - |r|)
    ensures r != [] ==> !IsSpace(r[0])
    decreases |s|
  {
    if s != [] && IsSpace(s[0]) then TrimStart(s[1..]) else s
  }

  /** Drops the trailing white space. */
  function TrimEnd(s: string): (r: string)
    ensures |r| <= |s| && r == s[..|r|]
    ensures AllSpace(s, |r|, |s|)
    ensures r != [] ==> !IsSpace(r[|r| - 1])
    decreases |s|
  {
    if s != [] && IsSpace(s[|s| - 1]) then TrimEnd(s[..|s| - 1]) else s
  }

  /** `String.prototype.trim`. `TrimIsTrimOf` states what it leaves. */
  function Trim(s: string): (r: string)
    ensures |r| <= |s|
  {
    TrimEnd(TrimStart(s))
  }

  /** `trim` cuts exactly the white-space margins: what it leaves is a slice of `s` with only
      white space around it, and no white space at either end of it. */
  lemma TrimIsTrimOf(s: string)
    ensures var i, r := |s| - |TrimStart(s)|, Trim(s);
      && i + |r| <= |s| && r == s[i..i + |r|]
      && AllSpace(s, 0, i) && AllSpace(s, i + |r|, |s|)
      && (r != [] ==> !IsSpace(r[0]) && !IsSpace(r[|r| - 1]))
  {
    TrimSlice(s);
    TrimMargins(s);
    TrimEnds(s);
  }

  lemma TrimSlice(s: string)
    ensures var i, r := |s| - |TrimStart(s)|, Trim(s); i + |r| <= |s| && r == s[i..i + |r|]
  {
    var t := TrimStart(s);
    var r := TrimEnd(t);
    assert Trim(s) == r;
    PrefixOfSuffix(s, |s| - |t|, t, r);
  }

  /** A prefix of a suffix of `s` is a slice of `s`. */
  lemma PrefixOfSuffix(s: string, i: nat, t: string, r: string)
    requires i <= |s| && t == s[i..] && |r| <= |t| && r == t[..|r|]
    ensures i + |r| <= |s| && r == s[i..i + |r|]
  {
  }

  lemma TrimMargins(s: string)
    ensures var i, r := |s| - |TrimStart(s)|, Trim(s); i + |r| <= |s| && AllSpace(s, 0, i) && AllSpace(s, i + |r|, |s|)
  {
    var t := TrimStart(s);
    AllSpaceOfSuffix(s, |s| - |t|, |Trim(s)|, |t|);
  }

  lemma TrimEnds(s: string)
    ensures var r := Trim(s); r != [] ==> !IsSpace(r[0]) && !IsSpace(r[|r| - 1])
  {
    var t := TrimStart(s);
    assert Trim(s) != [] ==> Trim(s)[0] == t[0];
  }

  /** White space in a suffix of `s` is white space in `s`, shifted by the suffix's offset. */
  lemma AllSpaceOfSuffix(s: string, i: nat, lo: nat, hi: nat)
    requires i <= |s| && lo <= hi <= |s| - i
    requires AllSpace(s[i..], lo, hi)
    ensures AllSpace(s, i + lo, i + hi)
  {
    forall k | i + lo <= k < i + hi ensures IsSpace(s[k]) {
      assert s[k] == s[i..][k - i];
    }
  }

  /** Trimming twice is trimming once. */
  lemma TrimIdempotent(s: string)
    ensures Trim(Trim(s)) == Trim(s)
  {
    TrimIsTrimOf(s);
    var r := Trim(s);
    assert r != [] ==> TrimStart(r) == r;
    assert r != [] ==> TrimEnd(r) == r;
  }

  /** A line is blank after trimming exactly when it is white space throughout. */
  lemma TrimEmptyIff(s: string)
    ensures Trim(s) == [] <==> AllSpace(s, 0, |s|)
  {
    var t := TrimStart(s);
    var r := TrimEnd(t);
    var i := |s| - |t|;
    assert t == s[i..];
    if r == [] {
      assert t == [];
    } else {
      assert r[0] == t[0] == s[i];
    }
  }

  // ---------------------------------------------------------------------------
  // split / join

  /** The number of occurrences of `c` in `s`. */
  function Occurrences(s: string, c: char): nat
    decreases |s|
  {
    if s == [] then 0 else (if s[0] == c then 1 else 0) + Occurrences(s[1..], c)
  }

  /** The parts glued back together with `sep` between neighbours (`parts.join(sep)`). */
  function Join(parts: seq<string>, sep: char): string
    decreases |parts|
  {
    if |parts| == 0 then []
    else if |parts| == 1 then parts[0]
    else parts[0] + [sep] + Join(parts[1..], sep)
  }

  /** `s.split(sep)` for a one-character separator: every occurrence cuts and nothing is
      quoted, so `k` separators give `k + 1` parts, and the empty string gives one empty part. */
  function Split(s: string, sep: char): (parts: seq<string>)
    ensures |parts| == Occurrences(s, sep) + 1
    ensures forall k :: 0 <= k < |parts| ==> sep !in parts[k]
    ensures Join(parts, sep) == s
    decreases |s|
  {
    if s == [] then [[]]
    else
      var rest := Split(s[1..], sep);
      if s[0] == sep then
        var parts := [[]] + rest;
        assert parts[1..] == rest;
        assert s == [sep] + s[1..];
        parts
      else
        var parts := [[s[0]] + rest[0]] + rest[1..];
        assert s == [s[0]] + s[1..];
        assert |rest| > 1 ==> Join(rest, sep) == rest[0] + [sep] + Join(rest[1..], sep);
        assert |parts| > 1 ==> parts[1..] == rest[1..];
        parts
  }

  lemma {:induction false} SplitWithoutSeparator(p: string, sep: char)
    requires sep !in p
    ensures Split(p, sep) == [p]
    decreases |p|
  {
    if p != [] {
      assert sep !in p[1..];
      SplitWithoutSeparator(p[1..], sep);
      assert [p[0]] + p[1..] == p;
    }
  }

  lemma {:induction false} SplitAfterPart(p: string, sep: char, t: string)
    requires sep !in p
    ensures Split(p + [sep] + t, sep) == [p] + Split(t, sep)
    decreases |p|
  {
    var s := p + [sep] + t;
    if p == [] {
      assert s[1..] == t;
    } else {
      assert s[1..] == p[1..] + [sep] + t;
      assert sep !in p[1..];
      SplitAfterPart(p[1..], sep, t);
      assert [p[0]] + p[1..] == p;
    }
  }

  /** Splitting undoes joining, as long as no part contains the separator. */
  lemma {:induction false} SplitJoin(parts: seq<string>, sep: char)
    requires |parts| >= 1
    requires forall k :: 0 <= k < |parts| ==> sep !in parts[k]
    ensures Split(Join(parts, sep), sep) == parts
    decreases |parts|
  {
    if |parts| == 1 {
      SplitWithoutSeparator(parts[0], sep);
    } else {
      SplitJoin(parts[1..], sep);
      SplitAfterPart(parts[0], sep, Join(parts[1..], sep));
      assert [parts[0]] + parts[1..] == parts;
    }
  }

  // ---------------------------------------------------------------------------
  // includes

  /** `sub` occurs in `s` starting at index `i`. */
  predicate OccursAt(s: string, sub: string, i: nat) {
    i + |sub| <= |s| && s[i..i + |sub|] == sub
  }

  lemma OccursAtShift(s: string, sub: string, i: nat)
    requires s != []
    ensures OccursAt(s, sub, i + 1) <==> OccursAt(s[1..], sub, i)
  {
    if i + 1 + |sub| <= |s| {
      assert s[1..][i..i + |sub|] == s[i + 1..i + 1 + |sub|];
    }
  }

  /** `s.includes(sub)`. */
  function Contains(s: string, sub: string): (b: bool)
    ensures b <==> exists i: nat :: OccursAt(s, sub, i)
    decreases |s|
  {
    if |sub| > |s| then
      assert forall i: nat :: !OccursAt(s, sub, i);
      false
    else if s[..|sub|] == sub then
      assert OccursAt(s, sub, 0);
      true
    else
      assert s != [];
      var b := Contains(s[1..], sub);
      assert b ==> exists i: nat :: OccursAt(s, sub, i) by {
        if b {
          var i: nat :| OccursAt(s[1..], sub, i);
          OccursAtShift(s, sub, i);
        }
      }
      assert (exists i: nat :: OccursAt(s, sub, i)) ==> b by {
        if exists i: nat :: OccursAt(s, sub, i) {
          var i: nat :| OccursAt(s, sub, i);
          assert i != 0;
          OccursAtShift(s, sub, i - 1);
        }
      }
      b
  }

  // ---------------------------------------------------------------------------
  // decimal numbers

  predicate IsDigit(c: char) {
    '0' <= c <= '9'
  }

  predicate AllDigits(s: string, lo: int, hi: int)
    requires 0 <= lo <= hi <= |s|
  {
    forall k :: lo <= k < hi ==> IsDigit(s[k])
  }

  predicate IsDigits(s: string) {
    AllDigits(s, 0, |s|)
  }

  function DigitValue(c: char): nat
    requires IsDigit(c)
  {
    (c as int) - ('0' as int)
  }

  function DigitChar(d: nat): (c: char)
    requires d < 10
    ensures IsDigit(c) && DigitValue(c) == d
  {
    (('0' as int) + d) as char
  }

  /** The value of a string of decimal digits, most significant digit first. */
  function DigitsValue(s: string): nat
    requires IsDigits(s)
    decreases |s|
  {
    if s == [] then 0 else DigitsValue(s[..|s| - 1]) * 10 + DigitValue(s[|s| - 1])
  }

  /** `${n}` for a non-negative integer: its decimal digits, without leading zeros. */
  function Decimal(n: nat): (r: string)
    ensures |r| >= 1 && IsDigits(r)
    ensures DigitsValue(r) == n
    ensures |r| > 1 ==> r[0] != '0'
    decreases n
  {
    if n < 10 then [DigitChar(n)]
    else
      var front := Decimal(n / 10);
      var r := front + [DigitChar(n % 10)];
      assert r[..|r| - 1] == front;
      r
  }

  /** `${i}` for any integer: a minus sign before the digits of a negative number. */
  function IntToString(i: int): (r: string)
    ensures |r| >= 1
    ensures i < 0 <==> r[0] == '-'
  {
    if i < 0 then "-" + Decimal(-i) else Decimal(i)
  }

  /** The longest prefix of `s` made of decimal digits. */
  function LeadingDigits(s: string): (r: string)
    ensures |r| <= |s| && r == s[..|r|] && IsDigits(r)
    ensures |r| < |s| ==> !IsDigit(s[|r|])
    decreases |s|
  {
    if s != [] && IsDigit(s[0]) then
      var rest := LeadingDigits(s[1..]);
      var r := [s[0]] + rest;
      assert forall k :: 1 <= k < |r| ==> r[k] == rest[k - 1];
      r
    else []
  }

  /** What `parseInt` reads once the leading white space is gone: one optional sign, then the
      longest run of decimal digits; `None` where there is no digit. */
  function ParseSigned(t: string): Option<int>
  {
    var negative := t != [] && t[0] == '-';
    var unsigned := if t != [] && (t[0] == '-' || t[0] == '+') then t[1..] else t;
    var digits := LeadingDigits(unsigned);
    if digits == [] then None
    else Some(if negative then -(DigitsValue(digits) as int) else DigitsValue(digits))
  }

  /** `parseInt(s)` in base ten: leading white space is skipped, then the sign and digits are
      read; `None` is the `NaN` returned when there is no digit. */
  function ParseInt(s: string): Option<int>
  {
    ParseSigned(TrimStart(s))
  }

  /** `parseInt(s) || 0`: the count columns' reading, zero where `parseInt` finds no digit. */
  function ParseCount(s: string): int
  {
    ParseInt(s).GetOr(0)
  }

  lemma {:induction false} TrimStartSkipsSpace(pre: string, x: string)
    requires AllSpace(pre, 0, |pre|)
    requires x == [] || !IsSpace(x[0])
    ensures TrimStart(pre + x) == x
    decreases |pre|
  {
    if pre != [] {
      var px := pre + x;
      assert px[0] == pre[0] && IsSpace(px[0]);
      assert px[1..] == pre[1..] + x;
      assert TrimStart(px) == TrimStart(px[1..]);
      TrimStartSkipsSpace(pre[1..], x);
    } else {
      assert pre + x == x;
    }
  }

  lemma {:induction false} LeadingDigitsStop(x: string, y: string)
    requires y == [] || !IsDigit(y[0])
    ensures LeadingDigits(x + y) == LeadingDigits(x)
    decreases |x|
  {
    if x == [] {
      assert x + y == y;
    } else {
      assert (x + y)[1..] == x[1..] + y;
      LeadingDigitsStop(x[1..], y);
    }
  }

  /** A run of digits is its own longest digit prefix. */
  lemma {:induction false} LeadingDigitsOfDigits(d: string)
    requires IsDigits(d)
    ensures LeadingDigits(d) == d
    decreases |d|
  {
    if d != [] {
      LeadingDigitsOfDigits(d[1..]);
      assert [d[0]] + d[1..] == d;
    }
  }

  /** The digits of a natural number followed by a non-digit read back as the number. */
  lemma ParseSignedReadsNatural(n: nat, post: string)
    requires post == [] || !IsDigit(post[0])
    ensures ParseSigned(Decimal(n) + post) == Some(n)
  {
    var d := Decimal(n);
    var x := d + post;
    assert x[0] == d[0] && IsDigit(x[0]);
    LeadingDigitsStop(d, post);
    LeadingDigitsOfDigits(d);
  }

  /** A minus sign and a run of digits, followed by a non-digit, read back as the negated
      value of the digits. */
  lemma ParseSignedReadsMinus(d: string, post: string)
    requires IsDigits(d) && d != []
    requires post == [] || !IsDigit(post[0])
    ensures ParseSigned(['-'] + (d + post)) == Some(-(DigitsValue(d) as int))
  {
    var x := ['-'] + (d + post);
    assert x[1..] == d + post;
    LeadingDigitsStop(d, post);
    LeadingDigitsOfDigits(d);
    ParseSignedOfMinus(x);
  }

  /** A text starting with a minus sign reads as the negated value of the digits after it. */
  lemma ParseSignedOfMinus(t: string)
    requires t != [] && t[0] == '-'
    ensures LeadingDigits(t[1..]) != [] ==> ParseSigned(t) == Some(-(DigitsValue(LeadingDigits(t[1..])) as int))
  {
  }

  /** The text of a negative integer, followed by a non-digit, reads back as the integer. */
  lemma ParseSignedReadsNegative(i: int, post: string)
    requires i < 0
    requires post == [] || !IsDigit(post[0])
    ensures ParseSigned(IntToString(i) + post) == Some(i)
  {
    var d := Decimal(-i);
    assert IntToString(i) + post == ['-'] + (d + post);
    ParseSignedReadsMinus(d, post);
  }

  /** `parseInt` reads back what a template literal writes for an integer, whatever white
      space precedes it and whatever non-digit text follows it. */
  lemma ParseIntReadsDecimal(pre: string, i: int, post: string)
    requires AllSpace(pre, 0, |pre|)
    requires post == [] || !IsDigit(post[0])
    ensures ParseInt(pre + IntToString(i) + post) == Some(i)
  {
    var x := IntToString(i) + post;
    assert pre + IntToString(i) + post == pre + x;
    assert x[0] == IntToString(i)[0];
    assert !IsSpace(x[0]) by {
      if i >= 0 { assert IsDigit(Decimal(i)[0]); }
    }
    TrimStartSkipsSpace(pre, x);
    if i < 0 {
      ParseSignedReadsNegative(i, post);
    } else {
      ParseSignedReadsNatural(i, post);
    }
  }

  lemma TrimStartOfTrimmed(t: string)
    requires t == [] || !IsSpace(t[0])
    ensures TrimStart(t) == t
  {
  }

  /** Text after a number that starts with a non-digit does not change what is read. */
  lemma ParseSignedIgnoresTail(r: string, y: string)
    requires r != []
    requires y == [] || !IsDigit(y[0])
    ensures ParseSigned(r + y) == ParseSigned(r)
  {
    var ry := r + y;
    assert ry[0] == r[0];
    if r[0] == '-' || r[0] == '+' {
      assert ry[1..] == r[1..] + y;
      LeadingDigitsStop(r[1..], y);
    } else {
      LeadingDigitsStop(r, y);
    }
  }

  /** Trailing white space does not change what is read. */
  lemma ParseSignedIgnoresTrailingSpace(t: string)
    ensures ParseSigned(TrimEnd(t)) == ParseSigned(t)
  {
    var r := TrimEnd(t);
    if r == [] {
      assert t != [] ==> IsSpace(t[0]);
    } else {
      var y := t[|r|..];
      assert t == r + y;
      assert y == [] || IsSpace(y[0]);
      ParseSignedIgnoresTail(r, y);
    }
  }

  /** `parseInt` reads the same number from a value and from its trimmed text: it skips the
      leading white space itself and stops at the trailing one. */
  lemma ParseIntIgnoresTrim(s: string)
    ensures ParseInt(Trim(s)) == ParseInt(s)
  {
    var t := TrimStart(s);
    var r := TrimEnd(t);
    ParseSignedIgnoresTrailingSpace(t);
    assert r != [] ==> r[0] == t[0];
    TrimStartOfTrimmed(r);
  }

  // ---------------------------------------------------------------------------
  // characters

  predicate IsLowerAscii(c: char) {
    'a' <= c <= 'z'
  }

  predicate IsUpperAscii(c: char) {
    'A' <= c <= 'Z'
  }

  /** ASCII lower-casing; every other character is left as it is. */
  function LowerAscii(c: char): (r: char)
    ensures IsUpperAscii(c) ==> IsLowerAscii(r) && r as int == c as int + 32
    ensures !IsUpperAscii(c) ==> r == c
  {
    if IsUpperAscii(c) then (c as int + 32) as char else c
  }

  function LowerAsciiString(s: string): (r: string)
    ensures |r| == |s|
    ensures forall k :: 0 <= k < |s| ==> r[k] == LowerAscii(s[k])
  {
    seq(|s|, k requires 0 <= k < |s| => LowerAscii(s[k]))
  }

  /** A code point outside the Basic Multilingual Plane, which UTF-16 writes as a surrogate pair. */
  predicate IsAstral(c: char) {
    c as int >= 0x1_0000
  }

  /** For each character of `s`, whether it is astral. */
  function AstralFlags(s: string): (flags: seq<bool>)
    ensures |flags| == |s| && forall k :: 0 <= k < |s| ==> flags[k] == IsAstral(s[k])
  {
    seq(|s|, k requires 0 <= k < |s| => IsAstral(s[k]))
  }

  lemma AstralFlagsSplit(s: string)
    requires s != []
    ensures multiset(AstralFlags(s))[true] == (if IsAstral(s[0]) then 1 else 0) + multiset(AstralFlags(s[1..]))[true]
  {
    assert AstralFlags(s) == [IsAstral(s[0])] + AstralFlags(s[1..]);
  }

  /** `s.length`: JavaScript counts UTF-16 code units, so a code point above U+FFFF counts twice:
      the length is the number of characters plus the number of astral ones. */
  function Utf16Length(s: string): (n: nat)
    ensures n == |s| + multiset(AstralFlags(s))[true]
    ensures |s| <= n <= 2 * |s|
    decreases |s|
  {
    if s == [] then 0
    else
      AstralFlagsSplit(s);
      (if IsAstral(s[0]) then 2 else 1) + Utf16Length(s[1..])
  }
}
