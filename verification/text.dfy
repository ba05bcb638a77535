/**
 * The handful of Python `str` operations the application relies on:
 * `split(",")`, `strip()`, `isdigit()`, `int(...)`, `str(...)`, `lower()`,
 * `" ".join(...)` and the `{i:05d}` format.
 */
module Text {
  import opened Base

  // ---------------------------------------------------------------- strip

  /** The characters Python's `str.isspace()` accepts, i.e. those `strip()` removes. */
  predicate IsSpace(c: char) {
    || ('\t' <= c <= '\r')
    || ('\U{1C}' <= c <= '\U{1F}')
    || c == ' '
    || c == '\U{85}'
    || c == '\U{A0}'
    || c == '\U{1680}'
    || ('\U{2000}' <= c <= '\U{200A}')
    || c == '\U{2028}'
    || c == '\U{2029}'
    || c == '\U{202F}'
    || c == '\U{205F}'
    || c == '\U{3000}'
  }

  /** Number of whitespace characters at the front of `s`. */
  function LeadingSpaces(s: string): (n: nat)
    ensures n <= |s|
    ensures forall i :: 0 <= i < n ==> IsSpace(s[i])
    ensures n == |s| || !IsSpace(s[n])
  {
    if s == [] || !IsSpace(s[0]) then 0 else 1 + LeadingSpaces(s[1..])
  }

  /** Number of whitespace characters at the back of `s`. */
  function TrailingSpaces(s: string): (n: nat)
    ensures n <= |s|
    ensures forall i :: |s| - n <= i < |s| ==> IsSpace(s[i])
    ensures n == |s| || !IsSpace(s[|s| - n - 1])
  {
    if s == [] || !IsSpace(s[|s| - 1]) then 0 else 1 + TrailingSpaces(s[..|s| - 1])
  }

  /** `s.strip()`: `s` without its leading and trailing whitespace. */
  function Strip(s: string): (r: string)
    ensures var a := LeadingSpaces(s);
      && a + |r| <= |s|
      && r == s[a..a + |r|]
      && forall i :: a + |r| <= i < |s| ==> IsSpace(s[i])
    ensures r == [] || (!IsSpace(r[0]) && !IsSpace(r[|r| - 1]))
  {
    var t := s[LeadingSpaces(s)..];
    t[..|t| - TrailingSpaces(t)]
  }

  /** A string that neither starts nor ends with whitespace is its own `strip()`. */
  lemma StripUnchanged(s: string)
    requires s == [] || (!IsSpace(s[0]) && !IsSpace(s[|s| - 1]))
    ensures Strip(s) == s
  {
    assert LeadingSpaces(s) == 0;
    assert s[0..] == s;
  }

  /** Whitespace in front of a string that does not start with whitespace is exactly what is skipped. */
  lemma {:induction false} LeadingSpacesOf(a: string, t: string)
    requires forall i :: 0 <= i < |a| ==> IsSpace(a[i])
    requires t == [] || !IsSpace(t[0])
    ensures LeadingSpaces(a + t) == |a|
    decreases |a|
  {
    if a != [] {
      assert (a + t)[1..] == a[1..] + t;
      LeadingSpacesOf(a[1..], t);
    } else {
      assert a + t == t;
    }
  }

  /** Whitespace after a string that does not end with whitespace is exactly what is cut. */
  lemma {:induction false} TrailingSpacesOf(t: string, b: string)
    requires forall i :: 0 <= i < |b| ==> IsSpace(b[i])
    requires t == [] || !IsSpace(t[|t| - 1])
    ensures TrailingSpaces(t + b) == |b|
    decreases |b|
  {
    if b != [] {
      assert (t + b)[..|t + b| - 1] == t + b[..|b| - 1];
      TrailingSpacesOf(t, b[..|b| - 1]);
    } else {
      assert t + b == t;
    }
  }

  /**
   * `strip()` removes exactly the surrounding whitespace: a core that neither
   * starts nor ends with whitespace comes back unchanged, whatever whitespace
   * surrounds it.
   */
  lemma StripSurrounded(a: string, m: string, b: string)
    requires forall i :: 0 <= i < |a| ==> IsSpace(a[i])
    requires forall i :: 0 <= i < |b| ==> IsSpace(b[i])
    requires m == [] || (!IsSpace(m[0]) && !IsSpace(m[|m| - 1]))
    ensures Strip(a + m + b) == m
  {
    var s := a + m + b;
    if m == [] {
      assert s == a + b;
      assert forall i :: 0 <= i < |s| ==> IsSpace(s[i]);
      assert LeadingSpaces(s) == |s|;
    } else {
      assert s == a + (m + b);
      LeadingSpacesOf(a, m + b);
      assert s[|a|..] == m + b;
      TrailingSpacesOf(m, b);
      assert (m + b)[..|m|] == m;
    }
  }

  // ---------------------------------------------------------------- split / join

  /** `s.split(sep)` for a one-character separator: always at least one piece. */
  function Split(s: string, sep: char): (pieces: seq<string>)
    ensures |pieces| >= 1
    ensures forall i :: 0 <= i < |pieces| ==> sep !in pieces[i]
    decreases |s|
  {
    if s == [] then [[]]
    else
      var rest := Split(s[1..], sep);
      if s[0] == sep then [[]] + rest else [[s[0]] + rest[0]] + rest[1..]
  }

  /** A split yields one piece more than there are separators. */
  lemma {:induction false} SplitCount(s: string, sep: char)
    ensures |Split(s, sep)| == multiset(s)[sep] + 1
    decreases |s|
  {
    if s != [] {
      assert s == [s[0]] + s[1..];
      SplitCount(s[1..], sep);
    }
  }

  /** `sep.join(parts)`. */
  function JoinWith(parts: seq<string>, sep: char): string
  {
    if |parts| == 0 then []
    else if |parts| == 1 then parts[0]
    else parts[0] + [sep] + JoinWith(parts[1..], sep)
  }

  /** Gluing a character onto the first part glues it onto the joined string. */
  lemma JoinGlue(c: char, parts: seq<string>, sep: char)
    requires |parts| >= 1
    ensures JoinWith([[c] + parts[0]] + parts[1..], sep) == [c] + JoinWith(parts, sep)
  {
    var glued := [[c] + parts[0]] + parts[1..];
    assert glued[0] == [c] + parts[0];
    if |parts| > 1 {
      assert glued[1..] == parts[1..];
      assert JoinWith(glued, sep) == ([c] + parts[0]) + [sep] + JoinWith(parts[1..], sep);
    }
  }

  /** Joining the pieces of a split gives back the original string. */
  lemma {:induction false} JoinSplit(s: string, sep: char)
    ensures JoinWith(Split(s, sep), sep) == s
    decreases |s|
  {
    if s != [] {
      var c := s[0];
      assert s == [c] + s[1..];
      JoinSplit(s[1..], sep);
      var rest := Split(s[1..], sep);
      if c == sep {
        var pieces := [[]] + rest;
        assert Split(s, sep) == pieces;
        assert pieces[1..] == rest;
        assert JoinWith(pieces, sep) == [] + [c] + JoinWith(rest, sep);
      } else {
        assert Split(s, sep) == [[c] + rest[0]] + rest[1..];
        JoinGlue(c, rest, sep);
      }
    }
  }

  /** Splitting a non-empty string handles its first character, then the rest. */
  lemma SplitCons(c: char, t: string, sep: char)
    ensures Split([c] + t, sep) ==
      if c == sep then [[]] + Split(t, sep) else [[c] + Split(t, sep)[0]] + Split(t, sep)[1..]
  {
    assert ([c] + t)[0] == c && ([c] + t)[1..] == t;
  }

  /** Splitting `a + t` where `a` has no separator glues `a` onto the first piece of `t`. */
  lemma {:induction false} SplitPrefix(a: string, t: string, sep: char)
    requires sep !in a
    ensures Split(a + t, sep) == [a + Split(t, sep)[0]] + Split(t, sep)[1..]
    decreases |a|
  {
    var st := Split(t, sep);
    if a == [] {
      assert a + t == t;
      assert a + st[0] == st[0];
      assert st == [st[0]] + st[1..];
    } else {
      var c, a' := a[0], a[1..];
      assert a == [c] + a';
      assert a + t == [c] + (a' + t);
      SplitPrefix(a', t, sep);
      SplitCons(c, a' + t, sep);
      var rest := Split(a' + t, sep);
      assert rest[0] == a' + st[0] && rest[1..] == st[1..];
      Associative([c], a', st[0]);
    }
  }

  /** Splitting a join of separator-free parts gives back the parts. */
  lemma {:induction false} SplitJoin(parts: seq<string>, sep: char)
    requires |parts| >= 1
    requires forall i :: 0 <= i < |parts| ==> sep !in parts[i]
    ensures Split(JoinWith(parts, sep), sep) == parts
    decreases |parts|
  {
    if |parts| == 1 {
      SplitPrefix(parts[0], [], sep);
      assert parts[0] + [] == parts[0];
    } else {
      var head, rest := parts[0], parts[1..];
      assert parts == [head] + rest;
      var joined := JoinWith(rest, sep);
      assert JoinWith(parts, sep) == head + ([sep] + joined);
      SplitJoin(rest, sep);
      SplitCons(sep, joined, sep);
      SplitPrefix(head, [sep] + joined, sep);
      assert head + [] == head;
    }
  }

  // ---------------------------------------------------------------- digits

  predicate IsDigitChar(c: char) {
    '0' <= c <= '9'
  }

  /** `s.isdigit()`, restricted to the ASCII digits: non-empty and digits only. */
  predicate IsDigits(s: string) {
    |s| > 0 && forall i :: 0 <= i < |s| ==> IsDigitChar(s[i])
  }

  function DigitValue(c: char): (d: nat)
    requires IsDigitChar(c)
    ensures d < 10
  {
    c as int - '0' as int
  }

  function DigitChar(d: nat): (c: char)
    requires d < 10
    ensures IsDigitChar(c) && DigitValue(c) == d
  {
    ('0' as int + d) as char
  }

  /** `int(s)` for a string of decimal digits (leading zeros allowed, as Python allows them). */
  function DecimalValue(s: string): (v: nat)
    requires forall i :: 0 <= i < |s| ==> IsDigitChar(s[i])
  {
    if s == [] then 0 else 10 * DecimalValue(s[..|s| - 1]) + DigitValue(s[|s| - 1])
  }

  /** `str(n)` for a non-negative integer: canonical decimal, and `int` reads it back. */
  function NatToString(n: nat): (s: string)
    ensures IsDigits(s)
    ensures s[0] != '0' || n == 0
    ensures DecimalValue(s) == n
  {
    if n < 10 then [DigitChar(n)]
    else
      var prefix := NatToString(n / 10);
      var s := prefix + [DigitChar(n % 10)];
      assert s[..|s| - 1] == prefix;
      s
  }

  /** A digit string whose first digit is not `0` denotes a positive number. */
  lemma {:induction false} LeadingNonzeroPositive(s: string)
    requires IsDigits(s) && s[0] != '0'
    ensures DecimalValue(s) > 0
    decreases |s|
  {
    if |s| > 1 {
      LeadingNonzeroPositive(s[..|s| - 1]);
    }
  }

  /** A canonical digit string (no superfluous leading zero) is `str` of its own value. */
  lemma {:induction false} NatToStringOfValue(s: string)
    requires IsDigits(s) && (s[0] != '0' || |s| == 1)
    ensures NatToString(DecimalValue(s)) == s
    decreases |s|
  {
    if |s| > 1 {
      var prefix, last := s[..|s| - 1], s[|s| - 1];
      assert s == prefix + [last];
      var v, p, d := DecimalValue(s), DecimalValue(prefix), DigitValue(last);
      assert v == 10 * p + d;
      assert v / 10 == p && v % 10 == d;
      assert DigitChar(d) == last;
      LeadingNonzeroPositive(prefix);
      NatToStringOfValue(prefix);
    }
  }

  /** `str(i)` for any integer. */
  function IntToString(i: int): (s: string)
    ensures |s| > 0
    ensures i >= 0 ==> IsDigits(s) && DecimalValue(s) == i
    ensures i < 0 ==> s[0] == '-' && IsDigits(s[1..]) && DecimalValue(s[1..]) == -i
    ensures i >= 0 ==> s[0] != '0' || i == 0
    ensures i < 0 ==> s[1] != '0'
  {
    if i < 0 then "-" + NatToString(-i) else NatToString(i)
  }

  /** A string of `k` copies of `c`. */
  function Repeat(c: char, k: nat): (s: string)
    ensures |s| == k && forall i :: 0 <= i < k ==> s[i] == c
  {
    seq(k, _ => c)
  }

  /** Leading zeros do not change the value of a digit string. */
  lemma {:induction false} LeadingZerosValue(k: nat, d: string)
    requires forall i :: 0 <= i < |d| ==> IsDigitChar(d[i])
    ensures DecimalValue(Repeat('0', k) + d) == DecimalValue(d)
    decreases |d|, k
  {
    var z := Repeat('0', k);
    if d == [] {
      assert z + d == z;
      if k > 0 {
        LeadingZerosValue(k - 1, []);
        assert z[..k - 1] == Repeat('0', k - 1);
        assert Repeat('0', k - 1) + [] == Repeat('0', k - 1);
      }
    } else {
      var d' := d[..|d| - 1];
      LeadingZerosValue(k, d');
      assert (z + d)[..|z + d| - 1] == z + d';
    }
  }

  /** The format `{n:0<width>d}` for a non-negative `n`. */
  function ZeroPad(n: nat, width: nat): (s: string)
    ensures |s| == if |NatToString(n)| < width then width else |NatToString(n)|
    ensures IsDigits(s) && DecimalValue(s) == n
  {
    var digits := NatToString(n);
    if |digits| < width then
      LeadingZerosValue(width - |digits|, digits);
      Repeat('0', width - |digits|) + digits
    else digits
  }

  // ---------------------------------------------------------------- lower

  /** `c.lower()` on the ASCII letters. */
  function LowerChar(c: char): (l: char)
    ensures !('A' <= l <= 'Z')
    ensures !('A' <= c <= 'Z') ==> l == c
    ensures 'A' <= c <= 'Z' ==> l as int == c as int + 32
  {
    if 'A' <= c <= 'Z' then (c as int - 'A' as int + 'a' as int) as char else c
  }

  /** `s.lower()` on the ASCII letters. */
  function Lower(s: string): (r: string)
    ensures |r| == |s| && forall i :: 0 <= i < |s| ==> r[i] == LowerChar(s[i])
  {
    seq(|s|, i requires 0 <= i < |s| => LowerChar(s[i]))
  }
}
