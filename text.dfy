/**
 * The handful of Python `str` operations the collectors, the store and the
 * services rely on, written out on `seq<char>`: `strip`, slicing, `lower`,
 * `startswith`, `in`, `split`, `str(int)` and `int(str)`.
 */
module Text {
  import opened Wrappers

  function Min(a: int, b: int): int { if a <= b then a else b }

  /** Python's `str.isspace()` for one character: exactly the characters `str.strip()` removes. */
  predicate IsSpace(c: char) {
    var n := c as int;
    (9 <= n <= 13) || (28 <= n <= 32) || n == 0x85 || n == 0xA0 || n == 0x1680 ||
    (0x2000 <= n <= 0x200A) || n == 0x2028 || n == 0x2029 || n == 0x202F ||
    n == 0x205F || n == 0x3000
  }

  /** The first index from `i` on that does not hold whitespace, or `|s|`. */
  function SpacesFrom(s: string, i: nat): (n: nat)
    requires i <= |s|
    ensures i <= n <= |s|
    ensures n == |s| || !IsSpace(s[n])
    decreases |s| - i
  {
    if i < |s| && IsSpace(s[i]) then SpacesFrom(s, i + 1) else i
  }

  /** Everything `SpacesFrom` skips is whitespace. */
  lemma {:induction false} SpacesFromAll(s: string, i: nat)
    requires i <= |s|
    ensures forall k :: i <= k < SpacesFrom(s, i) ==> IsSpace(s[k])
    decreases |s| - i
  {
    if i < |s| && IsSpace(s[i]) {
      SpacesFromAll(s, i + 1);
    }
  }

  /** The index just after the last character before `j` that is not whitespace, or 0. */
  function SpacesBefore(s: string, j: nat): (n: nat)
    requires j <= |s|
    ensures n <= j
    ensures n == 0 || !IsSpace(s[n - 1])
  {
    if j > 0 && IsSpace(s[j - 1]) then SpacesBefore(s, j - 1) else j
  }

  /** Everything `SpacesBefore` skips is whitespace. */
  lemma {:induction false} SpacesBeforeAll(s: string, j: nat)
    requires j <= |s|
    ensures forall k :: SpacesBefore(s, j) <= k < j ==> IsSpace(s[k])
  {
    if j > 0 && IsSpace(s[j - 1]) {
      SpacesBeforeAll(s, j - 1);
    }
  }

  /** `s.lstrip()`: drops leading whitespace. */
  function TrimLeft(s: string): (r: string)
    ensures |r| <= |s| && r == s[|s| - |r|..]
    ensures r == "" || !IsSpace(r[0])
  {
    s[SpacesFrom(s, 0)..]
  }

  /** What `lstrip()` drops is whitespace, and nothing else. */
  lemma TrimLeftSpaces(s: string)
    ensures forall k :: 0 <= k < |s| - |TrimLeft(s)| ==> IsSpace(s[k])
  {
    SpacesFromAll(s, 0);
  }

  /** `s.rstrip()`: drops trailing whitespace. */
  function TrimRight(s: string): (r: string)
    ensures |r| <= |s| && r == s[..|r|]
    ensures r == "" || !IsSpace(r[|r| - 1])
  {
    s[..SpacesBefore(s, |s|)]
  }

  /** What `rstrip()` drops is whitespace, and nothing else. */
  lemma TrimRightSpaces(s: string)
    ensures forall k :: |TrimRight(s)| <= k < |s| ==> IsSpace(s[k])
  {
    SpacesBeforeAll(s, |s|);
  }

  /** `s.strip()`: the result is empty or starts and ends with a non-space character. */
  function Strip(s: string): (r: string)
    ensures |r| <= |s|
    ensures r == "" || (!IsSpace(r[0]) && !IsSpace(r[|r| - 1]))
  {
    TrimRight(TrimLeft(s))
  }

  /** A string that does not start with whitespace is its own `lstrip()`. */
  lemma TrimLeftUnpadded(s: string)
    requires s == "" || !IsSpace(s[0])
    ensures TrimLeft(s) == s
  {
    assert SpacesFrom(s, 0) == 0;
    assert s[0..] == s;
  }

  /** A string that does not end with whitespace is its own `rstrip()`. */
  lemma TrimRightUnpadded(s: string)
    requires s == "" || !IsSpace(s[|s| - 1])
    ensures TrimRight(s) == s
  {
    assert SpacesBefore(s, |s|) == |s|;
    assert s[..|s|] == s;
  }

  /** A string without surrounding whitespace is its own `strip()`. */
  lemma StripUnpadded(s: string)
    requires s == "" || (!IsSpace(s[0]) && !IsSpace(s[|s| - 1]))
    ensures Strip(s) == s
  {
    TrimLeftUnpadded(s);
    TrimRightUnpadded(s);
  }

  /** `strip()` is idempotent. */
  lemma StripIdempotent(s: string)
    ensures Strip(Strip(s)) == Strip(s)
  {
    StripUnpadded(Strip(s));
  }

  /** `strip()` yields `''` exactly when the string is all whitespace. */
  lemma {:induction false} StripEmpty(s: string)
    ensures Strip(s) == "" <==> forall k :: 0 <= k < |s| ==> IsSpace(s[k])
  {
    var l := TrimLeft(s);
    TrimLeftSpaces(s);
    TrimRightSpaces(l);
    if !(forall k :: 0 <= k < |s| ==> IsSpace(s[k])) {
      var k :| 0 <= k < |s| && !IsSpace(s[k]);
      assert k >= |s| - |l|;
      assert l[k - (|s| - |l|)] == s[k];
      assert TrimRight(l) != "";
    }
  }

  /** A string that starts with a non-space character does not strip to `''`. */
  lemma StripKeepsNonSpaceStart(s: string)
    requires |s| > 0 && !IsSpace(s[0])
    ensures Strip(s) != "" && Strip(s)[0] == s[0]
  {
    TrimLeftUnpadded(s);
    TrimRightSpaces(s);
    var r := TrimRight(s);
    assert r[0] == s[0];
  }

  /** A prefix that starts and ends with non-space characters survives `strip()`. */
  lemma StripKeepsPrefix(s: string, p: string)
    requires StartsWith(s, p) && p != "" && !IsSpace(p[0]) && !IsSpace(p[|p| - 1])
    ensures StartsWith(Strip(s), p)
  {
    assert s[0] == p[0];
    TrimLeftUnpadded(s);
    TrimRightSpaces(s);
    var r := TrimRight(s);
    assert s[|p| - 1] == p[|p| - 1];
    assert |r| >= |p|;
    assert r[..|p|] == s[..|p|];
  }

  /** `s[:n]` for a non-negative `n`. */
  function Take<T>(s: seq<T>, n: nat): (r: seq<T>)
    ensures |r| == Min(n, |s|) && r == s[..|r|]
  {
    if |s| <= n then s else s[..n]
  }

  /** Cutting a sequence that is already short enough keeps all of it. */
  lemma TakeAll<T>(s: seq<T>, n: nat)
    requires |s| <= n
    ensures Take(s, n) == s
  {
  }

  /** `str.lower()` on one character, for ASCII letters. */
  function LowerChar(c: char): char {
    if 'A' <= c <= 'Z' then (c as int + 32) as char else c
  }

  /** `str.lower()`, mapping the ASCII upper-case letters only. */
  function Lower(s: string): (r: string)
    ensures |r| == |s|
    ensures forall i :: 0 <= i < |s| ==> r[i] == LowerChar(s[i])
  {
    seq(|s|, i requires 0 <= i < |s| => LowerChar(s[i]))
  }

  /** Lower-casing twice is lower-casing once. */
  lemma LowerIdempotent(s: string)
    ensures Lower(Lower(s)) == Lower(s)
  {
  }

  /** `lower()` maps no character to or from whitespace. */
  lemma {:induction false} LowerSpacesFrom(s: string, i: nat)
    requires i <= |s|
    ensures SpacesFrom(Lower(s), i) == SpacesFrom(s, i)
    decreases |s| - i
  {
    if i < |s| {
      assert IsSpace(Lower(s)[i]) == IsSpace(s[i]);
      LowerSpacesFrom(s, i + 1);
    }
  }

  lemma {:induction false} LowerSpacesBefore(s: string, j: nat)
    requires j <= |s|
    ensures SpacesBefore(Lower(s), j) == SpacesBefore(s, j)
  {
    if j > 0 {
      assert IsSpace(Lower(s)[j - 1]) == IsSpace(s[j - 1]);
      LowerSpacesBefore(s, j - 1);
    }
  }

  /** So `lower()` commutes with `lstrip()`... */
  lemma LowerTrimLeft(s: string)
    ensures TrimLeft(Lower(s)) == Lower(TrimLeft(s))
  {
    LowerSpacesFrom(s, 0);
    var n := SpacesFrom(s, 0);
    assert Lower(s)[n..] == Lower(s[n..]);
  }

  /** ...and with `rstrip()`. */
  lemma LowerTrimRight(s: string)
    ensures TrimRight(Lower(s)) == Lower(TrimRight(s))
  {
    LowerSpacesBefore(s, |s|);
    var n := SpacesBefore(s, |s|);
    assert Lower(s)[..n] == Lower(s[..n]);
  }

  /** `s.lower().strip() == s.strip().lower()` */
  lemma LowerStrip(s: string)
    ensures Strip(Lower(s)) == Lower(Strip(s))
  {
    LowerTrimLeft(s);
    LowerTrimRight(TrimLeft(s));
  }

  /** `s.startswith(p)` */
  predicate StartsWith(s: string, p: string) {
    |p| <= |s| && s[..|p|] == p
  }

  /** `pat` occurs in `s` starting at index `k`. */
  predicate OccursAt(s: string, pat: string, k: int) {
    0 <= k && k + |pat| <= |s| && s[k..k + |pat|] == pat
  }

  /** The first index from `i` on at which `pat` occurs, if any. */
  function IndexFrom(s: string, pat: string, i: nat): (r: Option<nat>)
    ensures r.Some? ==> i <= r.value && OccursAt(s, pat, r.value)
    ensures r.Some? ==> forall k :: i <= k < r.value ==> !OccursAt(s, pat, k)
    ensures r.None? ==> forall k :: i <= k ==> !OccursAt(s, pat, k)
    decreases |s| - i
  {
    if i + |pat| > |s| then None
    else if s[i..i + |pat|] == pat then Some(i)
    else IndexFrom(s, pat, i + 1)
  }

  /** `s.find(pat)`: the first index at which `pat` occurs, if any. */
  function IndexOf(s: string, pat: string): (r: Option<nat>)
    ensures r.Some? ==> OccursAt(s, pat, r.value)
    ensures r.Some? ==> forall k :: 0 <= k < r.value ==> !OccursAt(s, pat, k)
    ensures r.None? ==> forall k :: !OccursAt(s, pat, k)
  {
    IndexFrom(s, pat, 0)
  }

  /** `pat in s` */
  predicate Contains(s: string, pat: string) {
    IndexOf(s, pat).Some?
  }

  /** An occurrence inside a prefix is an occurrence in the whole string. */
  lemma OccursInPrefix(s: string, pat: string, n: nat, k: int)
    requires n <= |s| && OccursAt(s[..n], pat, k)
    ensures OccursAt(s, pat, k)
  {
    assert s[..n][k..k + |pat|] == s[k..k + |pat|];
  }

  /** `s.split(sep)` for a non-empty separator. */
  function Split(s: string, sep: string): (parts: seq<string>)
    requires |sep| > 0
    ensures |parts| >= 1
    decreases |s|
  {
    match IndexOf(s, sep)
    case None => [s]
    case Some(i) => [s[..i]] + Split(s[i + |sep|..], sep)
  }

  /** No part of a split contains the separator. */
  lemma {:induction false} SplitPartsFree(s: string, sep: string)
    requires |sep| > 0
    ensures forall j :: 0 <= j < |Split(s, sep)| ==> !Contains(Split(s, sep)[j], sep)
    decreases |s|
  {
    match IndexOf(s, sep)
    case None =>
    case Some(i) =>
      forall k | OccursAt(s[..i], sep, k) ensures false {
        OccursInPrefix(s, sep, i, k);
      }
      SplitPartsFree(s[i + |sep|..], sep);
      var rest := Split(s[i + |sep|..], sep);
      var parts := Split(s, sep);
      assert parts == [s[..i]] + rest;
      forall j | 0 <= j < |parts| ensures !Contains(parts[j], sep) {
        if j > 0 { assert parts[j] == rest[j - 1]; }
      }
  }

  /** `sep.join(parts)` */
  function Join(parts: seq<string>, sep: string): string
    requires |parts| >= 1
  {
    if |parts| == 1 then parts[0] else parts[0] + sep + Join(parts[1..], sep)
  }

  /** Joining the parts of a split with its separator gives back the original string. */
  lemma {:induction false} SplitJoin(s: string, sep: string)
    requires |sep| > 0
    ensures Join(Split(s, sep), sep) == s
    decreases |s|
  {
    match IndexOf(s, sep)
    case None =>
    case Some(i) =>
      var rest := s[i + |sep|..];
      var parts := Split(s, sep);
      assert parts == [s[..i]] + Split(rest, sep);
      SplitJoin(rest, sep);
      assert parts[1..] == Split(rest, sep);
      assert Join(parts, sep) == s[..i] + sep + Join(Split(rest, sep), sep);
      assert s[i..i + |sep|] == sep;
      assert s == s[..i] + sep + rest;
  }

  /** The first part of a split is the text before the first separator, or all of `s`. */
  lemma SplitFirst(s: string, sep: string)
    requires |sep| > 0
    ensures IndexOf(s, sep).None? ==> Split(s, sep) == [s]
    ensures IndexOf(s, sep).Some? ==>
              |Split(s, sep)| >= 2 && Split(s, sep)[0] == s[..IndexOf(s, sep).value]
    ensures IndexOf(s, sep).Some? ==>
              Split(s, sep)[1] == Split(s[IndexOf(s, sep).value + |sep|..], sep)[0]
  {
    match IndexOf(s, sep)
    case None =>
    case Some(i) =>
      var rest := Split(s[i + |sep|..], sep);
      assert Split(s, sep) == [s[..i]] + rest;
      assert ([s[..i]] + rest)[1] == rest[0];
  }

  /** An occurrence at `p` with none before it is the one `find` reports. */
  lemma IndexOfIs(s: string, pat: string, p: nat)
    requires OccursAt(s, pat, p)
    requires forall k :: 0 <= k < p ==> !OccursAt(s, pat, k)
    ensures IndexOf(s, pat) == Some(p)
  {
  }

  /**
   * The first part of `s.split(sep)` is `s[:n]` when `sep` occurs at `n`
   * (or `n` is the end of `s`) and nowhere before it.
   */
  lemma SplitHead(s: string, sep: string, n: nat)
    requires |sep| > 0 && n <= |s|
    requires forall k :: 0 <= k < n ==> !OccursAt(s, sep, k)
    requires n == |s| || OccursAt(s, sep, n)
    ensures Split(s, sep)[0] == s[..n]
  {
    if n < |s| {
      IndexOfIs(s, sep, n);
    } else {
      assert forall k :: !OccursAt(s, sep, k);
    }
  }

  /** SQLite's BINARY collation on text: lexicographic order of the characters. */
  predicate StrLt(a: string, b: string)
    decreases |a|
  {
    |b| > 0 && (|a| == 0 || a[0] < b[0] || (a[0] == b[0] && StrLt(a[1..], b[1..])))
  }

  lemma {:induction false} StrLtTrans(a: string, b: string, c: string)
    requires StrLt(a, b) && StrLt(b, c)
    ensures StrLt(a, c)
    decreases |a|
  {
    if |a| > 0 && a[0] == b[0] && b[0] == c[0] {
      StrLtTrans(a[1..], b[1..], c[1..]);
    }
  }

  lemma {:induction false} StrLtTotal(a: string, b: string)
    ensures StrLt(a, b) || a == b || StrLt(b, a)
    decreases |a|
  {
    if |a| > 0 && |b| > 0 && a[0] == b[0] {
      StrLtTotal(a[1..], b[1..]);
      if a[1..] == b[1..] {
        assert a == [a[0]] + a[1..] && b == [b[0]] + b[1..];
      }
    }
  }

  predicate IsDigit(c: char) { '0' <= c <= '9' }

  function DigitChar(d: int): (c: char)
    requires 0 <= d < 10
    ensures IsDigit(c) && c as int - '0' as int == d
  {
    (d + '0' as int) as char
  }

  /** `str(n)` for a natural number: its decimal digits, without leading zeros. */
  function NatToString(n: nat): (r: string)
    ensures |r| >= 1
    ensures forall i :: 0 <= i < |r| ==> IsDigit(r[i])
    decreases n
  {
    if n < 10 then [DigitChar(n)] else NatToString(n / 10) + [DigitChar(n % 10)]
  }

  /** `str(n)` for an integer, with a leading `-` for negatives. */
  function IntToString(n: int): (r: string)
    ensures r != "" && IsDigit(r[|r| - 1])
    ensures n >= 0 <==> IsDigit(r[0])
  {
    if n < 0 then "-" + NatToString(-n) else NatToString(n)
  }

  /** The value of a string of decimal digits, read left to right. */
  function DigitsValue(s: string): nat
    requires forall i :: 0 <= i < |s| ==> IsDigit(s[i])
    decreases |s|
  {
    if s == [] then 0
    else
      assert IsDigit(s[|s| - 1]);
      DigitsValue(s[..|s| - 1]) * 10 + (s[|s| - 1] as int - '0' as int)
  }

  predicate AllDigits(s: string) {
    |s| > 0 && forall i :: 0 <= i < |s| ==> IsDigit(s[i])
  }

  /**
   * A base-10 numeral as `int` reads it: ASCII digits, possibly in groups
   * joined by single underscores (`1_000`), starting and ending with a digit.
   */
  predicate IsNumeral(s: string) {
    |s| > 0 && IsDigit(s[0]) && IsDigit(s[|s| - 1]) &&
    forall i :: 0 <= i < |s| ==> IsDigit(s[i]) || (s[i] == '_' && i + 1 < |s| && IsDigit(s[i + 1]))
  }

  /** The digits of `s` in order, every other character dropped. */
  function DigitsIn(s: string): (r: string)
    ensures |r| <= |s|
    ensures forall i :: 0 <= i < |r| ==> IsDigit(r[i])
  {
    if s == [] then []
    else (if IsDigit(s[0]) then [s[0]] else []) + DigitsIn(s[1..])
  }

  /** Keeping the digits of a concatenation keeps the digits of each part. */
  lemma {:induction false} DigitsInConcat(a: string, b: string)
    ensures DigitsIn(a + b) == DigitsIn(a) + DigitsIn(b)
    decreases |a|
  {
    if a == [] {
      assert a + b == b;
    } else {
      assert (a + b)[0] == a[0] && (a + b)[1..] == a[1..] + b;
      DigitsInConcat(a[1..], b);
    }
  }

  /** A string of digits only is its own digits and a numeral. */
  lemma {:induction false} DigitsInAll(s: string)
    requires forall i :: 0 <= i < |s| ==> IsDigit(s[i])
    ensures DigitsIn(s) == s
    decreases |s|
  {
    if s != [] {
      DigitsInAll(s[1..]);
    }
  }

  /**
   * `int(s)` for a base-10 string: surrounding whitespace, an optional sign and
   * a numeral; `None` where Python raises `ValueError` on ASCII text.
   */
  function ParseInt(s: string): (r: Option<int>)
    ensures r.Some? <==> IsNumeral(Strip(s)) || (|Strip(s)| > 1 && (Strip(s)[0] == '-' || Strip(s)[0] == '+') && IsNumeral(Strip(s)[1..]))
  {
    var t := Strip(s);
    if |t| > 0 && (t[0] == '-' || t[0] == '+') then
      if IsNumeral(t[1..]) then
        var v: int := DigitsValue(DigitsIn(t[1..]));
        Some(if t[0] == '-' then -v else v)
      else None
    else if IsNumeral(t) then Some(DigitsValue(DigitsIn(t)))
    else None
  }

  /** Two groups of digits joined by an underscore form a numeral whose digits are the groups run together. */
  lemma GroupedNumeral(a: string, b: string)
    requires AllDigits(a) && AllDigits(b)
    ensures IsNumeral(a + "_" + b) && DigitsIn(a + "_" + b) == a + b
  {
    var s := a + "_" + b;
    assert s[0] == a[0] && s[|s| - 1] == b[|b| - 1];
    forall i | 0 <= i < |s|
      ensures IsDigit(s[i]) || (s[i] == '_' && i + 1 < |s| && IsDigit(s[i + 1]))
    {
      if i == |a| {
        assert s[i + 1] == b[0];
      } else if i < |a| {
        assert s[i] == a[i];
      } else {
        assert s[i] == b[i - |a| - 1];
      }
    }
    DigitsInConcat(a + "_", b);
    DigitsInConcat(a, "_");
    DigitsInAll(a);
    DigitsInAll(b);
    assert DigitsIn("_") == [];
  }

  /** `int(a + "_" + b)` for two groups of digits is the value of the digits run together. */
  lemma ParseIntGrouped(a: string, b: string)
    requires AllDigits(a) && AllDigits(b)
    ensures ParseInt(a + "_" + b) == Some(DigitsValue(a + b))
  {
    GroupedNumeral(a, b);
    StripUnpadded(a + "_" + b);
  }

  lemma {:induction false} DigitsOfNat(n: nat)
    ensures DigitsValue(NatToString(n)) == n
    decreases n
  {
    if n >= 10 {
      var s := NatToString(n);
      DigitsOfNat(n / 10);
      assert s[..|s| - 1] == NatToString(n / 10);
    }
  }

  /** `int` of a plain string of digits is its value. */
  lemma ParseIntDigits(s: string)
    requires AllDigits(s)
    ensures ParseInt(s) == Some(DigitsValue(s))
  {
    assert IsDigit(s[0]) && IsDigit(s[|s| - 1]);
    StripUnpadded(s);
    DigitsInAll(s);
  }

  /** `int` of a minus sign and digits is the negated value of the digits. */
  lemma ParseIntNegated(s: string)
    requires AllDigits(s)
    ensures ParseInt("-" + s).Some? && ParseInt("-" + s).value == -(DigitsValue(s) as int)
  {
    SignedUnpadded('-', s);
    assert ("-" + s)[1..] == s;
    assert IsDigit(s[0]) && IsDigit(s[|s| - 1]);
    DigitsInAll(s);
  }

  /** A sign followed by digits has no surrounding whitespace. */
  lemma SignedUnpadded(sign: char, s: string)
    requires !IsSpace(sign) && AllDigits(s)
    ensures Strip([sign] + s) == [sign] + s
  {
    var t := [sign] + s;
    assert t[|t| - 1] == s[|s| - 1];
    StripUnpadded(t);
  }

  /** `int(str(n)) == n`: an interval stored as a setting string reads back unchanged. */
  lemma ParseIntRoundTrip(n: int)
    ensures ParseInt(IntToString(n)) == Some(n)
  {
    var s := NatToString(if n < 0 then -n else n);
    DigitsOfNat(if n < 0 then -n else n);
    if n < 0 {
      ParseIntNegated(s);
    } else {
      ParseIntDigits(s);
    }
  }
}
