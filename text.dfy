/**
 * The Python string and integer built-ins that both checks lean on, written
 * out so that their edge cases are part of the model: substring search
 * (`pat in s`), `str.split(sep)`, `str.splitlines()`, slicing with negative
 * and out-of-range indices, `str.lower()`, `int(s)` and `"%d" % n`.
 */
module PyText {

  datatype Option<+T> = None | Some(value: T) {
    function GetOr(default: T): T {
      match this
      case Some(v) => v
      case None => default
    }
  }

  // ---------------------------------------------------------------------
  // Substrings

  predicate IsPrefix(p: string, s: string) {
    |p| <= |s| && s[..|p|] == p
  }

  predicate IsSuffix(p: string, s: string) {
    |p| <= |s| && s[|s| - |p|..] == p
  }

  /** `pat` occurs in `s` starting at index `i`. */
  predicate OccursAt(s: string, pat: string, i: int) {
    0 <= i && i + |pat| <= |s| && s[i..i + |pat|] == pat
  }

  /** Python's `pat in s`. */
  predicate Contains(s: string, pat: string) {
    exists i | 0 <= i <= |s| :: OccursAt(s, pat, i)
  }

  lemma ContainsTransitive(a: string, b: string, c: string)
    requires Contains(a, b) && Contains(b, c)
    ensures Contains(a, c)
  {
    var i :| 0 <= i <= |a| && OccursAt(a, b, i);
    var j :| 0 <= j <= |b| && OccursAt(b, c, j);
    forall t | 0 <= t < |c|
      ensures a[i + j + t] == c[t]
    {
      assert a[i + j + t] == a[i..i + |b|][j + t] == b[j + t];
      assert b[j + t] == b[j..j + |c|][t];
    }
    assert a[i + j..i + j + |c|] == c;
    assert OccursAt(a, c, i + j);
  }

  lemma ContainsSelf(s: string)
    ensures Contains(s, s)
  {
    assert OccursAt(s, s, 0);
  }

  // ---------------------------------------------------------------------
  // str.split(sep) and its inverse, sep.join(parts)

  /** Python's `s.split(sep)` for a non-empty separator: cut at the leftmost
      occurrences of `sep`, left to right, without overlap. */
  function Split(s: string, sep: string): (parts: seq<string>)
    requires sep != []
    ensures parts != []
  {
    SplitFrom(s, sep, [])
  }

  /** Splitting `s` when `cur` has already been read into the current piece. */
  function SplitFrom(s: string, sep: string, cur: string): (parts: seq<string>)
    requires sep != []
    ensures parts != []
    decreases |s|
  {
    if s == [] then [cur]
    else if IsPrefix(sep, s) then [cur] + SplitFrom(s[|sep|..], sep, [])
    else SplitFrom(s[1..], sep, cur + [s[0]])
  }

  /** Python's `sep.join(parts)`. */
  function Join(parts: seq<string>, sep: string): string {
    if |parts| == 0 then []
    else if |parts| == 1 then parts[0]
    else parts[0] + sep + Join(parts[1..], sep)
  }

  lemma {:induction false} JoinSplitFrom(s: string, sep: string, cur: string)
    requires sep != []
    ensures Join(SplitFrom(s, sep, cur), sep) == cur + s
    decreases |s|
  {
    if s == [] {
    } else if IsPrefix(sep, s) {
      var rest := SplitFrom(s[|sep|..], sep, []);
      JoinSplitFrom(s[|sep|..], sep, []);
      assert ([cur] + rest)[1..] == rest;
      assert s == sep + s[|sep|..];
    } else {
      JoinSplitFrom(s[1..], sep, cur + [s[0]]);
      assert cur + [s[0]] + s[1..] == cur + s;
    }
  }

  /** Joining the pieces back with the separator gives the original text. */
  lemma JoinSplit(s: string, sep: string)
    requires sep != []
    ensures Join(Split(s, sep), sep) == s
  {
    JoinSplitFrom(s, sep, []);
  }

  lemma {:induction false} SplitFromNoSeparator(s: string, sep: string, cur: string)
    requires sep != [] && sep[0] !in s
    ensures SplitFrom(s, sep, cur) == [cur + s]
    decreases |s|
  {
    if s != [] {
      assert s[0] in s && s[0] != sep[0];
      assert !IsPrefix(sep, s);
      SplitFromNoSeparator(s[1..], sep, cur + [s[0]]);
      assert cur + [s[0]] + s[1..] == cur + s;
    } else {
      assert cur + s == cur;
    }
  }

  lemma {:induction false} SplitFromAt(a: string, sep: string, b: string, cur: string)
    requires sep != [] && sep[0] !in a
    ensures SplitFrom(a + sep + b, sep, cur) == [cur + a] + SplitFrom(b, sep, [])
    decreases |a|
  {
    var s := a + sep + b;
    if a == [] {
      assert s[..|sep|] == sep && s[|sep|..] == b;
      assert cur + a == cur;
    } else {
      assert s[0] == a[0] && s[1..] == a[1..] + sep + b;
      assert a[0] in a;
      assert !IsPrefix(sep, s);
      SplitFromAt(a[1..], sep, b, cur + [a[0]]);
      assert cur + [a[0]] + a[1..] == cur + a;
    }
  }

  /** A text in which the separator's first character never occurs is a
      single piece. */
  lemma SplitWhole(s: string, sep: string)
    requires sep != [] && sep[0] !in s
    ensures Split(s, sep) == [s]
  {
    SplitFromNoSeparator(s, sep, []);
    assert [] + s == s;
  }

  /** Splitting at the first separator: when the separator's first character
      does not occur before it, the text before it is the first piece, and
      the rest is split on its own. */
  lemma SplitAt(a: string, sep: string, b: string)
    requires sep != [] && sep[0] !in a
    ensures Split(a + sep + b, sep) == [a] + Split(b, sep)
  {
    SplitFromAt(a, sep, b, []);
    assert [] + a == a;
  }

  lemma {:induction false} SplitFromLast(a: string, c: char, b: string, cur: string)
    requires c !in b
    ensures var parts := SplitFrom(a + [c] + b, [c], cur); parts[|parts| - 1] == b
    decreases |a|
  {
    var s := a + [c] + b;
    if a == [] {
      assert s[..1] == [c] && s[1..] == b;
      SplitFromNoSeparator(b, [c], []);
      assert [] + b == b;
    } else if a[0] == c {
      assert s[..1] == [c] && s[1..] == a[1..] + [c] + b;
      SplitFromLast(a[1..], c, b, []);
    } else {
      assert s[0] == a[0] && s[1..] == a[1..] + [c] + b;
      assert !IsPrefix([c], s);
      SplitFromLast(a[1..], c, b, cur + [a[0]]);
    }
  }

  /** The last piece is whatever follows the last separator. */
  lemma SplitLast(a: string, c: char, b: string)
    requires c !in b
    ensures var parts := Split(a + [c] + b, [c]); parts[|parts| - 1] == b
  {
    SplitFromLast(a, c, b, []);
  }

  // ---------------------------------------------------------------------
  // str.splitlines()

  predicate IsLineBreak(c: char) {
    c == '\n' || c == '\r'
  }

  predicate NoLineBreak(s: string) {
    forall i | 0 <= i < |s| :: !IsLineBreak(s[i])
  }

  /** Python's `s.splitlines()` for the separators "\n", "\r" and "\r\n":
      no trailing empty line, and no line at all for the empty text. */
  function SplitLines(s: string): seq<string> {
    LinesFrom(s, [])
  }

  function LinesFrom(s: string, cur: string): seq<string>
    decreases |s|
  {
    if s == [] then (if cur == [] then [] else [cur])
    else if s[0] == '\n' then [cur] + LinesFrom(s[1..], [])
    else if s[0] == '\r' then
      if |s| > 1 && s[1] == '\n' then [cur] + LinesFrom(s[2..], [])
      else [cur] + LinesFrom(s[1..], [])
    else LinesFrom(s[1..], cur + [s[0]])
  }

  /** Some line in `lines` contains `pat`. */
  predicate SomeLineContains(lines: seq<string>, pat: string) {
    exists k | 0 <= k < |lines| :: Contains(lines[k], pat)
  }

  lemma {:induction false} LinesFromAreSubstrings(s: string, cur: string)
    ensures forall k | 0 <= k < |LinesFrom(s, cur)| :: Contains(cur + s, LinesFrom(s, cur)[k])
    decreases |s|
  {
    var lines := LinesFrom(s, cur);
    if s == [] {
      assert cur + s == cur;
      if cur != [] { ContainsSelf(cur); }
    } else if s[0] == '\n' || s[0] == '\r' {
      var skip := if s[0] == '\r' && |s| > 1 && s[1] == '\n' then 2 else 1;
      var rest := LinesFrom(s[skip..], []);
      assert lines == [cur] + rest;
      LinesFromAreSubstrings(s[skip..], []);
      assert OccursAt(cur + s, cur, 0);
      assert OccursAt(cur + s, s[skip..], |cur| + skip) by {
        assert (cur + s)[|cur| + skip..] == s[skip..];
      }
      forall k | 0 <= k < |lines|
        ensures Contains(cur + s, lines[k])
      {
        if k > 0 {
          assert [] + s[skip..] == s[skip..];
          ContainsTransitive(cur + s, s[skip..], rest[k - 1]);
        }
      }
    } else {
      LinesFromAreSubstrings(s[1..], cur + [s[0]]);
      assert cur + [s[0]] + s[1..] == cur + s;
    }
  }

  /** An occurrence of a pattern without line breaks lies wholly before or
      wholly after any line break of the text. */
  lemma OccurrenceAvoidsBreak(x: string, pat: string, i: int, p: int)
    requires OccursAt(x, pat, i) && NoLineBreak(pat)
    requires 0 <= p < |x| && IsLineBreak(x[p])
    ensures p < i || i + |pat| <= p
  {
    forall k | i <= k < i + |pat| ensures !IsLineBreak(x[k]) {
      assert x[k] == x[i..i + |pat|][k - i];
    }
  }

  lemma OccursInPrefix(a: string, b: string, pat: string, i: int)
    requires OccursAt(a + b, pat, i) && i + |pat| <= |a|
    ensures OccursAt(a, pat, i)
  {
    assert (a + b)[i..i + |pat|] == a[i..i + |pat|];
  }

  lemma OccursInSuffix(x: string, pat: string, i: int, k: int)
    requires OccursAt(x, pat, i) && 0 <= k <= i
    ensures OccursAt(x[k..], pat, i - k)
  {
    assert x[k..][i - k..i - k + |pat|] == x[i..i + |pat|];
  }

  lemma {:induction false} LinesFromFind(s: string, cur: string, pat: string)
    requires pat != [] && NoLineBreak(pat) && NoLineBreak(cur)
    requires Contains(cur + s, pat)
    ensures SomeLineContains(LinesFrom(s, cur), pat)
    decreases |s|
  {
    var lines := LinesFrom(s, cur);
    var i :| 0 <= i <= |cur + s| && OccursAt(cur + s, pat, i);
    if s == [] {
      assert cur + s == cur;
      assert Contains(lines[0], pat);
    } else if s[0] == '\n' || s[0] == '\r' {
      var skip := if s[0] == '\r' && |s| > 1 && s[1] == '\n' then 2 else 1;
      var rest := LinesFrom(s[skip..], []);
      assert lines == [cur] + rest;
      OccurrenceAvoidsBreak(cur + s, pat, i, |cur|);
      if skip == 2 {
        OccurrenceAvoidsBreak(cur + s, pat, i, |cur| + 1);
      }
      if i + |pat| <= |cur| {
        OccursInPrefix(cur, s, pat, i);
        assert Contains(lines[0], pat);
      } else {
        OccursInSuffix(cur + s, pat, i, |cur| + skip);
        assert (cur + s)[|cur| + skip..] == [] + s[skip..];
        LinesFromFind(s[skip..], [], pat);
        var k :| 0 <= k < |rest| && Contains(rest[k], pat);
        assert lines[k + 1] == rest[k];
      }
    } else {
      assert cur + [s[0]] + s[1..] == cur + s;
      LinesFromFind(s[1..], cur + [s[0]], pat);
    }
  }

  /** A pattern without line breaks occurs in a text exactly when it occurs
      in one of the text's lines. */
  lemma LineContainsIff(s: string, pat: string)
    requires pat != [] && NoLineBreak(pat)
    ensures SomeLineContains(SplitLines(s), pat) <==> Contains(s, pat)
  {
    assert [] + s == s;
    if Contains(s, pat) {
      LinesFromFind(s, [], pat);
    }
    if SomeLineContains(SplitLines(s), pat) {
      var k :| 0 <= k < |SplitLines(s)| && Contains(SplitLines(s)[k], pat);
      LinesFromAreSubstrings(s, []);
      ContainsTransitive(s, SplitLines(s)[k], pat);
    }
  }

  // ---------------------------------------------------------------------
  // Slicing and lower-casing

  /** Where a Python slice bound `i` lands in a sequence of length `n`:
      negative bounds count from the end, and both kinds are clamped. */
  function SliceIndex(i: int, n: nat): (k: nat)
    ensures k <= n
    ensures 0 <= i <= n ==> k == i
    ensures i < 0 && 0 <= i + n ==> k == i + n
  {
    if i < 0 then (if i + n < 0 then 0 else i + n)
    else if i > n then n
    else i
  }

  /** Python's `s[i:j]`. */
  function Slice(s: string, i: int, j: int): string {
    var a, b := SliceIndex(i, |s|), SliceIndex(j, |s|);
    if a < b then s[a..b] else []
  }

  /** `s[1:]` drops the first character, and is empty for the empty text. */
  lemma SliceDropFirst(s: string)
    ensures Slice(s, 1, |s|) == if s == [] then [] else s[1..]
  {
  }

  /** `s[-9:-5]`: the (at most) four characters that end five before the end. */
  lemma SliceWindow(s: string)
    ensures |s| <= 5 ==> Slice(s, -9, -5) == []
    ensures 5 < |s| < 9 ==> Slice(s, -9, -5) == s[..|s| - 5]
    ensures 9 <= |s| ==> Slice(s, -9, -5) == s[|s| - 9..|s| - 5]
    ensures |Slice(s, -9, -5)| <= 4
  {
  }

  function Lower(c: char): char {
    if 'A' <= c <= 'Z' then (c as int + 32) as char else c
  }

  /** `s.lower()` restricted to ASCII letters. */
  function AsciiLower(s: string): (r: string)
    ensures |r| == |s|
    ensures forall i | 0 <= i < |s| :: r[i] == Lower(s[i])
  {
    if s == [] then [] else [Lower(s[0])] + AsciiLower(s[1..])
  }

  // ---------------------------------------------------------------------
  // int(s) and "%d" % n

  /** The whitespace `int()` strips: space, tab, line feed, vertical tab,
      form feed and carriage return. */
  predicate IsSpace(c: char) {
    c == ' ' || '\t' <= c <= '\r'
  }

  function TrimStart(s: string): string {
    if s != [] && IsSpace(s[0]) then TrimStart(s[1..]) else s
  }

  function TrimEnd(s: string): string {
    if s != [] && IsSpace(s[|s| - 1]) then TrimEnd(s[..|s| - 1]) else s
  }

  function Strip(s: string): string {
    TrimEnd(TrimStart(s))
  }

  predicate IsDigit(c: char) {
    '0' <= c <= '9'
  }

  predicate AllDigits(s: string) {
    forall i | 0 <= i < |s| :: IsDigit(s[i])
  }

  /** The value of a run of decimal digits, most significant first. */
  function DigitsValue(s: string): nat
    requires AllDigits(s)
  {
    if s == [] then 0 else DigitsValue(s[..|s| - 1]) * 10 + (s[|s| - 1] as int - '0' as int)
  }

  /** Python's `int(s)` in base 10: surrounding whitespace, an optional sign,
      then one or more decimal digits; anything else is a ValueError (None). */
  function ParseInt(s: string): Option<int> {
    var t := Strip(s);
    if t != [] && (t[0] == '-' || t[0] == '+') then
      if |t| > 1 && AllDigits(t[1..]) then
        Some(if t[0] == '-' then -(DigitsValue(t[1..]) as int) else DigitsValue(t[1..]))
      else None
    else if t != [] && AllDigits(t) then Some(DigitsValue(t))
    else None
  }

  function DigitChar(d: nat): (c: char)
    requires d < 10
    ensures IsDigit(c) && c as int - '0' as int == d
  {
    (d + '0' as int) as char
  }

  /** The decimal digits of `n`, without leading zeros. */
  function FormatNat(n: nat): (r: string)
    ensures r != [] && AllDigits(r)
  {
    if n < 10 then [DigitChar(n)] else FormatNat(n / 10) + [DigitChar(n % 10)]
  }

  /** Python's `"%d" % n`. */
  function FormatInt(n: int): (r: string)
    ensures r != []
    ensures forall i | 0 <= i < |r| :: IsDigit(r[i]) || (i == 0 && r[i] == '-')
  {
    if n < 0 then "-" + FormatNat(-n) else FormatNat(n)
  }

  lemma {:induction false} DigitsValueFormat(n: nat)
    ensures DigitsValue(FormatNat(n)) == n
  {
    if n >= 10 {
      var r := FormatNat(n);
      assert r[..|r| - 1] == FormatNat(n / 10);
      DigitsValueFormat(n / 10);
    }
  }

  lemma StripDigits(s: string)
    requires s != [] && !IsSpace(s[0]) && !IsSpace(s[|s| - 1])
    ensures Strip(s) == s
  {
  }

  /** `int("%d" % n) == n`: every printed number reads back as itself. */
  lemma ParseFormat(n: int)
    ensures ParseInt(FormatInt(n)) == Some(n)
  {
    var r := FormatInt(n);
    StripDigits(r);
    if n < 0 {
      assert r[1..] == FormatNat(-n);
      DigitsValueFormat(-n);
    } else {
      DigitsValueFormat(n);
    }
  }
}
