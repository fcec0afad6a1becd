/**
 The pieces of JavaScript string behaviour the services depend on:
 decimal printing of integers, `padStart(2, '0')`, `parseInt` with no radix,
 ASCII lower-casing, the default string order used by `Array.prototype.sort`,
 and `Array.prototype.join`.
 */
module Text {
  import opened Common

  // ------------------------------------------------------------------
  // Printing integers
  // ------------------------------------------------------------------

  predicate IsDigit(c: char) {
    '0' <= c <= '9'
  }

  function DigitValue(c: char): nat
    requires IsDigit(c)
  {
    c as int - '0' as int
  }

  function DigitChar(d: nat): (c: char)
    requires d < 10
    ensures IsDigit(c) && DigitValue(c) == d
  {
    ('0' as int + d) as char
  }

  /** `String(n)` for a natural number. */
  function ShowNat(n: nat): (s: string)
    ensures |s| > 0
    ensures forall i :: 0 <= i < |s| ==> IsDigit(s[i])
    ensures (|s| == 1) <==> n < 10
  {
    if n < 10 then [DigitChar(n)] else ShowNat(n / 10) + [DigitChar(n % 10)]
  }

  /** `String(i)` for an integer. */
  function ShowInt(i: int): string {
    if i < 0 then "-" + ShowNat(-i) else ShowNat(i)
  }

  /** `String(n).padStart(2, '0')` */
  function Pad2(n: nat): (s: string)
    ensures n < 100 ==> |s| == 2
    ensures forall i :: 0 <= i < |s| ==> IsDigit(s[i])
  {
    var d := ShowNat(n);
    if |d| < 2 then "0" + d else d
  }

  // ------------------------------------------------------------------
  // parseInt(s) with no radix argument
  // ------------------------------------------------------------------

  /** ECMAScript WhiteSpace and LineTerminator code points, which `parseInt` skips. */
  predicate IsJsSpace(c: char) {
    || ('\t' <= c <= '\r')
    || c == ' '
    || (c >= '\U{00A0}'
        && (|| c == '\U{00A0}' || c == '\U{1680}' || ('\U{2000}' <= c <= '\U{200A}')
            || c == '\U{2028}' || c == '\U{2029}' || c == '\U{202F}' || c == '\U{205F}'
            || c == '\U{3000}' || c == '\U{FEFF}'))
  }

  function TrimStart(s: string): (r: string)
    ensures |r| <= |s| && r == s[|s| - |r|..]
    ensures |r| > 0 ==> !IsJsSpace(r[0])
  {
    if |s| > 0 && IsJsSpace(s[0]) then TrimStart(s[1..]) else s
  }

  predicate IsHexDigit(c: char) {
    IsDigit(c) || ('a' <= c <= 'f') || ('A' <= c <= 'F')
  }

  function HexValue(c: char): nat
    requires IsHexDigit(c)
  {
    if IsDigit(c) then DigitValue(c)
    else if 'a' <= c <= 'f' then c as int - 'a' as int + 10
    else c as int - 'A' as int + 10
  }

  predicate IsRadixDigit(c: char, hex: bool) {
    if hex then IsHexDigit(c) else IsDigit(c)
  }

  /** Length of the longest prefix of `s` made of digits of the radix. */
  function DigitRun(s: string, hex: bool): (k: nat)
    ensures k <= |s|
    ensures forall i :: 0 <= i < k ==> IsRadixDigit(s[i], hex)
    ensures k < |s| ==> !IsRadixDigit(s[k], hex)
  {
    if |s| > 0 && IsRadixDigit(s[0], hex) then 1 + DigitRun(s[1..], hex) else 0
  }

  /** The value of a string of radix digits, most significant first. */
  function DigitsValue(s: string, hex: bool): nat
    requires forall i :: 0 <= i < |s| ==> IsRadixDigit(s[i], hex)
  {
    if |s| == 0 then 0
    else
      var last := s[|s| - 1];
      assert IsRadixDigit(last, hex);
      DigitsValue(s[..|s| - 1], hex) * (if hex then 16 else 10)
        + (if hex then HexValue(last) else DigitValue(last))
  }

  /** The sign-stripped part of `parseInt`: a `0x`/`0X` prefix selects radix 16, otherwise radix 10; no digits gives NaN (None). */
  function ParseUnsigned(s: string): Option<nat> {
    var hex := |s| >= 2 && s[0] == '0' && (s[1] == 'x' || s[1] == 'X');
    var body := if hex then s[2..] else s;
    var k := DigitRun(body, hex);
    if k == 0 then None else Some(DigitsValue(body[..k], hex))
  }

  /** `parseInt(s)`: leading white space, an optional sign, then the longest digit prefix; None stands for NaN. */
  function ParseInt(s: string): Option<int> {
    var t := TrimStart(s);
    var negative := |t| > 0 && t[0] == '-';
    var unsigned := if |t| > 0 && (t[0] == '-' || t[0] == '+') then t[1..] else t;
    match ParseUnsigned(unsigned)
    case None => None
    case Some(v) =>
      var n: int := v;
      Some(if negative then -n else n)
  }

  /** `parseInt(String(x || '0')) || 0`, the services' reading of a free-text rep count. */
  function RepsValue(x: Option<string>): int {
    match ParseInt(if TruthyStr(x) then x.value else "0")
    case None => 0
    case Some(v) => v
  }

  lemma DigitsValueShowNat(n: nat)
    ensures DigitsValue(ShowNat(n), false) == n
  {
    if n >= 10 {
      var s := ShowNat(n);
      assert s[..|s| - 1] == ShowNat(n / 10);
      DigitsValueShowNat(n / 10);
    }
  }

  lemma DigitIsNotSpace(c: char)
    requires IsDigit(c)
    ensures !IsJsSpace(c)
  {
  }

  lemma DigitRunExact(s: string, k: nat)
    requires k <= |s|
    requires forall i :: 0 <= i < k ==> IsDigit(s[i])
    requires k < |s| ==> !IsDigit(s[k])
    ensures DigitRun(s, false) == k
  {
    if k > 0 {
      DigitRunExact(s[1..], k - 1);
    }
  }

  /** A string that starts with `k` decimal digits (and is not a hex literal) reads as those digits. */
  lemma {:induction false} ParseIntDecimal(s: string, k: nat)
    requires 0 < k <= |s|
    requires forall i :: 0 <= i < k ==> IsDigit(s[i])
    requires k < |s| ==> !IsDigit(s[k])
    requires !(|s| >= 2 && s[0] == '0' && (s[1] == 'x' || s[1] == 'X'))
    ensures ParseInt(s) == Some(DigitsValue(s[..k], false))
  {
    DigitIsNotSpace(s[0]);
    assert TrimStart(s) == s;
    DigitRunExact(s, k);
    assert ParseUnsigned(s) == Some(DigitsValue(s[..k], false));
  }

  /** `parseInt` reads back what `String(n)` printed, and stops at the first character that is not a digit. */
  lemma {:induction false} ParseIntShowNat(n: nat, rest: string)
    requires |rest| > 0 ==> !IsDigit(rest[0])
    requires n == 0 && |rest| > 0 ==> rest[0] != 'x' && rest[0] != 'X'
    ensures ParseInt(ShowNat(n) + rest) == Some(n)
  {
    var d := ShowNat(n);
    var s := d + rest;
    assert s[..|d|] == d;
    assert forall i :: 0 <= i < |d| ==> s[i] == d[i];
    if |d| >= 2 {
      assert IsDigit(s[1]);
    } else if |s| >= 2 && s[0] == '0' {
      assert DigitValue(d[0]) == 0;
      assert s[1] == rest[0];
    }
    ParseIntDecimal(s, |d|);
    DigitsValueShowNat(n);
  }

  /** A rep count that starts with a number counts as that number: "12" is 12 and a range such as "8-10" counts its lower end. */
  lemma RepsValueLeadingNumber(n: nat, rest: string)
    requires |rest| > 0 ==> !IsDigit(rest[0])
    requires n == 0 && |rest| > 0 ==> rest[0] != 'x' && rest[0] != 'X'
    ensures RepsValue(Some(ShowNat(n) + rest)) == n
  {
    ParseIntShowNat(n, rest);
  }

  /** "AMRAP" is not a number and counts as 0. */
  lemma RepsValueWord()
    ensures RepsValue(Some("AMRAP")) == 0
  {
    assert TrimStart("AMRAP") == "AMRAP";
    assert DigitRun("AMRAP", false) == 0;
  }

  /** `parseInt("0")`, the reading of a missing rep count. */
  lemma ParseIntZero()
    ensures ParseInt("0") == Some(0)
  {
    ParseIntShowNat(0, "");
    assert ShowNat(0) + "" == "0";
  }

  /** A missing or empty rep count counts as 0. */
  lemma RepsValueMissing(x: Option<string>)
    requires !TruthyStr(x)
    ensures RepsValue(x) == 0
  {
    ParseIntZero();
  }

  /** `parseInt` yields a negative number only from a string holding a minus sign. */
  lemma ParseIntNegative(s: string)
    requires ParseInt(s).Some? && ParseInt(s).value < 0
    ensures '-' in s
  {
    var t := TrimStart(s);
    assert t[0] == s[|s| - |t|];
  }

  /** A rep count without a minus sign is never negative. */
  lemma RepsValueNonNegative(x: Option<string>)
    requires x.Some? ==> '-' !in x.value
    ensures RepsValue(x) >= 0
  {
    if TruthyStr(x) {
      if ParseInt(x.value).Some? && ParseInt(x.value).value < 0 {
        ParseIntNegative(x.value);
        assert false;
      }
    } else {
      RepsValueMissing(x);
    }
  }

  // ------------------------------------------------------------------
  // Lower-casing
  // ------------------------------------------------------------------

  /** `toLowerCase` restricted to the Basic Latin letters. */
  function LowerChar(c: char): (r: char)
    ensures ('A' <= c <= 'Z') ==> ('a' <= r <= 'z')
    ensures !('A' <= c <= 'Z') ==> r == c
  {
    if 'A' <= c <= 'Z' then (c as int + 32) as char else c
  }

  function Lower(s: string): (r: string)
    ensures |r| == |s|
    ensures forall i :: 0 <= i < |s| ==> r[i] == LowerChar(s[i])
  {
    if |s| == 0 then [] else [LowerChar(s[0])] + Lower(s[1..])
  }

  // ------------------------------------------------------------------
  // Default string order of Array.prototype.sort
  // ------------------------------------------------------------------

  /** Lexicographic order on character codes, a proper prefix first. */
  predicate StrLess(a: string, b: string)
    decreases |a|
  {
    if |a| == 0 then |b| > 0
    else if |b| == 0 then false
    else if a[0] == b[0] then StrLess(a[1..], b[1..])
    else a[0] < b[0]
  }

  lemma StrLessIrreflexive(a: string)
    ensures !StrLess(a, a)
  {
    if |a| > 0 {
      StrLessIrreflexive(a[1..]);
    }
  }

  lemma StrLessTransitive(a: string, b: string, c: string)
    requires StrLess(a, b) && StrLess(b, c)
    ensures StrLess(a, c)
    decreases |a|
  {
    if |a| > 0 && |b| > 0 && |c| > 0 && a[0] == b[0] && b[0] == c[0] {
      StrLessTransitive(a[1..], b[1..], c[1..]);
    }
  }

  lemma StrLessTotal(a: string, b: string)
    requires a != b
    ensures StrLess(a, b) || StrLess(b, a)
    decreases |a|
  {
    if |a| > 0 && |b| > 0 && a[0] == b[0] {
      assert a == [a[0]] + a[1..];
      assert b == [b[0]] + b[1..];
      StrLessTotal(a[1..], b[1..]);
    }
  }

  lemma StrLessAsymmetric(a: string, b: string)
    requires StrLess(a, b)
    ensures !StrLess(b, a)
  {
    if StrLess(b, a) {
      StrLessTransitive(a, b, a);
      StrLessIrreflexive(a);
    }
  }

  /** Strictly increasing in the default string order (and so free of duplicates). */
  ghost predicate StrictlySorted(s: seq<string>) {
    forall i, j :: 0 <= i < j < |s| ==> StrLess(s[i], s[j])
  }

  function InsertDistinct(x: string, s: seq<string>): (r: seq<string>)
    requires StrictlySorted(s)
    ensures StrictlySorted(r)
    ensures forall y :: y in r <==> y == x || y in s
  {
    if |s| == 0 then [x]
    else if x == s[0] then s
    else if StrLess(x, s[0]) then
      StrictlyFromHead(x, s);
      [x] + s
    else
      StrLessTotal(x, s[0]);
      var t := InsertDistinct(x, s[1..]);
      assert forall y :: y in s <==> y == s[0] || y in s[1..] by {
        assert s == [s[0]] + s[1..];
      }
      forall j | 0 <= j < |t|
        ensures StrLess(s[0], t[j])
      {
        assert t[j] in t;
        if t[j] != x {
          assert t[j] in s[1..];
          var m :| 0 <= m < |s[1..]| && s[1..][m] == t[j];
          assert s[m + 1] == t[j];
        }
      }
      [s[0]] + t
  }

  lemma StrictlyFromHead(x: string, s: seq<string>)
    requires StrictlySorted(s) && |s| > 0 && StrLess(x, s[0])
    ensures StrictlySorted([x] + s)
  {
    forall i, j | 0 <= i < j < |[x] + s|
      ensures StrLess(([x] + s)[i], ([x] + s)[j])
    {
      if i == 0 && j > 1 {
        StrLessTransitive(x, s[0], s[j - 1]);
      }
    }
  }

  /** `Array.from(new Set(xs)).sort()`: every value once, in the default string order. */
  function SortDistinct(xs: seq<string>): (r: seq<string>)
    ensures StrictlySorted(r)
    ensures forall y :: y in r <==> y in xs
  {
    if |xs| == 0 then []
    else
      var t := SortDistinct(xs[..|xs| - 1]);
      assert forall y :: y in xs <==> y == xs[|xs| - 1] || y in xs[..|xs| - 1] by {
        assert xs == xs[..|xs| - 1] + [xs[|xs| - 1]];
      }
      InsertDistinct(xs[|xs| - 1], t)
  }

  /** A strictly sorted list is determined by its values, so the options list is unique. */
  lemma {:induction false} StrictlySortedUnique(a: seq<string>, b: seq<string>)
    requires StrictlySorted(a) && StrictlySorted(b)
    requires forall y :: y in a <==> y in b
    ensures a == b
  {
    assert |a| > 0 ==> a[0] in a;
    assert |b| > 0 ==> b[0] in b;
    if |a| > 0 && |b| > 0 {
      assert a[0] in b;
      assert b[0] in a;
      var i :| 0 <= i < |b| && b[i] == a[0];
      var j :| 0 <= j < |a| && a[j] == b[0];
      if a[0] != b[0] {
        assert i > 0 && j > 0;
        assert StrLess(a[0], a[j]) && StrLess(b[0], b[i]);
        StrLessAsymmetric(a[0], b[0]);
        assert false;
      }
      forall y | y in a[1..]
        ensures y in b[1..]
      {
        var k :| 0 <= k < |a[1..]| && a[1..][k] == y;
        assert StrLess(a[0], a[k + 1]);
        assert y in b;
        var m :| 0 <= m < |b| && b[m] == y;
        if m == 0 {
          StrLessIrreflexive(y);
        }
        assert b[1..][m - 1] == y;
      }
      forall y | y in b[1..]
        ensures y in a[1..]
      {
        var k :| 0 <= k < |b[1..]| && b[1..][k] == y;
        assert StrLess(b[0], b[k + 1]);
        assert y in a;
        var m :| 0 <= m < |a| && a[m] == y;
        if m == 0 {
          StrLessIrreflexive(y);
        }
        assert a[1..][m - 1] == y;
      }
      StrictlySortedUnique(a[1..], b[1..]);
      assert a == [a[0]] + a[1..];
      assert b == [b[0]] + b[1..];
    }
  }

  // ------------------------------------------------------------------
  // Array.prototype.join
  // ------------------------------------------------------------------

  function Join(parts: seq<string>, sep: string): string {
    if |parts| == 0 then ""
    else if |parts| == 1 then parts[0]
    else parts[0] + sep + Join(parts[1..], sep)
  }

  function Occurrences(s: string, c: char): nat {
    if |s| == 0 then 0 else (if s[0] == c then 1 else 0) + Occurrences(s[1..], c)
  }

  lemma OccurrencesConcat(a: string, b: string, c: char)
    ensures Occurrences(a + b, c) == Occurrences(a, c) + Occurrences(b, c)
  {
    if |a| == 0 {
      assert a + b == b;
    } else {
      assert (a + b)[1..] == a[1..] + b;
      OccurrencesConcat(a[1..], b, c);
    }
  }

  /** Joining lines that hold no separator character yields one separator fewer than lines, and the text starts with the first line. */
  lemma {:induction false} JoinLines(parts: seq<string>, c: char)
    requires |parts| > 0
    requires forall i :: 0 <= i < |parts| ==> Occurrences(parts[i], c) == 0
    ensures Occurrences(Join(parts, [c]), c) == |parts| - 1
    ensures |parts[0]| <= |Join(parts, [c])| && Join(parts, [c])[..|parts[0]|] == parts[0]
  {
    if |parts| > 1 {
      JoinLines(parts[1..], c);
      var rest := Join(parts[1..], [c]);
      OccurrencesConcat(parts[0], [c], c);
      OccurrencesConcat(parts[0] + [c], rest, c);
      assert Join(parts, [c]) == (parts[0] + [c]) + rest;
      assert Occurrences([c], c) == 1 by {
        assert [c][1..] == [];
      }
    }
  }
}
