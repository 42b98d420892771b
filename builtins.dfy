/**
 * The Python string built-ins the sentence parser relies on: `str.startswith`,
 * `str.split(sep)`, `str.split(sep, 1)`, `sep.join(parts)`, `int(text)` and
 * `float(text)`. The last two are restricted to plain decimal notation.
 */
module Builtins {
  import opened Wrappers

  predicate StartsWith(s: string, prefix: string)
    ensures StartsWith(s, prefix) <==> exists t :: s == prefix + t
  {
    assert |prefix| <= |s| && s[..|prefix|] == prefix ==> s == prefix + s[|prefix|..];
    |prefix| <= |s| && s[..|prefix|] == prefix
  }

  /** `d` occurs in `s` starting at index `j`. */
  predicate OccursAt(s: string, d: string, j: int) {
    0 <= j && j + |d| <= |s| && s[j..j + |d|] == d
  }

  /** Leftmost occurrence of the non-empty separator `d` in `s` (what `str.split` scans for). */
  function FindFirst(s: string, d: string): (r: Option<nat>)
    requires |d| > 0
    ensures r.Some? ==> OccursAt(s, d, r.value)
    ensures forall j :: 0 <= j < (if r.Some? then r.value else |s|) ==> !OccursAt(s, d, j)
    decreases |s|
  {
    if |s| < |d| then None
    else if s[..|d|] == d then Some(0)
    else
      OccursAtShift(s, d);
      match FindFirst(s[1..], d)
      case None => None
      case Some(i) => Some(i + 1)
  }

  lemma OccursAtShift(s: string, d: string)
    requires |s| > 0
    ensures forall j :: 1 <= j ==> (OccursAt(s, d, j) <==> OccursAt(s[1..], d, j - 1))
  {
    forall j | 1 <= j
      ensures OccursAt(s, d, j) <==> OccursAt(s[1..], d, j - 1)
    {
      if j + |d| <= |s| {
        assert s[1..][j - 1..j - 1 + |d|] == s[j..j + |d|];
      }
    }
  }

  /** `s.split(d)` for a non-empty separator: the pieces between the non-overlapping occurrences of `d`, left to right. */
  function Split(s: string, d: string): (r: seq<string>)
    requires |d| > 0
    ensures |r| >= 1
    decreases |s|
  {
    match FindFirst(s, d)
    case None => [s]
    case Some(i) => [s[..i]] + Split(s[i + |d|..], d)
  }

  /** `d.join(parts)`. */
  function Join(parts: seq<string>, d: string): (r: string)
    requires |parts| >= 1
    ensures |parts[0]| <= |r| && r[..|parts[0]|] == parts[0]
    decreases |parts|
  {
    if |parts| == 1 then parts[0] else parts[0] + d + Join(parts[1..], d)
  }

  /** `s.split(d, 1)` unpacked into two names: `None` when the unpacking fails, i.e. `d` does not occur. */
  function SplitOnce(s: string, d: string): (r: Option<(string, string)>)
    requires |d| > 0
    ensures r.Some? <==> exists j :: 0 <= j <= |s| && OccursAt(s, d, j)
    ensures r.Some? ==> s == r.value.0 + d + r.value.1
    ensures r.Some? ==> forall j :: 0 <= j < |r.value.0| ==> !OccursAt(s, d, j)
  {
    match FindFirst(s, d)
    case None => None
    case Some(i) =>
      assert s == s[..i] + s[i..i + |d|] + s[i + |d|..];
      Some((s[..i], s[i + |d|..]))
  }

  lemma JoinCons(a: string, ps: seq<string>, d: string)
    requires |ps| >= 1
    ensures Join([a] + ps, d) == a + d + Join(ps, d)
  {
    assert ([a] + ps)[1..] == ps;
  }

  lemma Reassemble(s: string, d: string, i: nat)
    requires OccursAt(s, d, i)
    ensures s == s[..i] + d + s[i + |d|..]
  {
    assert s == s[..i] + s[i..i + |d|] + s[i + |d|..];
  }

  lemma SplitUnfold(s: string, d: string, i: nat)
    requires |d| > 0 && FindFirst(s, d) == Some(i)
    ensures i + |d| <= |s| && Split(s, d) == [s[..i]] + Split(s[i + |d|..], d)
  {
  }

  /** Splitting is lossless: joining the pieces with the separator gives back the text. */
  lemma {:induction false} JoinSplit(s: string, d: string)
    requires |d| > 0
    ensures Join(Split(s, d), d) == s
    decreases |s|
  {
    var r := FindFirst(s, d);
    if r.Some? {
      var i := r.value;
      var rest := s[i + |d|..];
      JoinSplit(rest, d);
      SplitUnfold(s, d, i);
      JoinCons(s[..i], Split(rest, d), d);
      Reassemble(s, d, i);
    }
  }

  /** No piece produced by `Split` contains the separator. */
  lemma {:induction false} SplitPiecesAvoidSeparator(s: string, d: string, k: nat, j: int)
    requires |d| > 0
    requires k < |Split(s, d)|
    ensures !OccursAt(Split(s, d)[k], d, j)
    decreases |s|
  {
    match FindFirst(s, d)
    case None =>
    case Some(i) =>
      if k == 0 {
        assert Split(s, d)[0] == s[..i];
        if OccursAt(s[..i], d, j) {
          assert 0 <= j < i && j + |d| <= i <= |s|;
          assert s[..i][j..j + |d|] == s[j..j + |d|];
          assert OccursAt(s, d, j);
        }
      } else {
        SplitPiecesAvoidSeparator(s[i + |d|..], d, k - 1, j);
      }
  }

  /** A separator occurrence cannot start inside a text that lacks the separator's first character. */
  lemma {:induction false} FindFirstAfterFreeText(a: string, d: string, b: string)
    requires |d| > 0 && d[0] !in a
    ensures FindFirst(a + d + b, d) == Some(|a|)
    decreases |a|
  {
    if |a| > 0 {
      assert (a + d + b)[..|d|] != d by { assert (a + d + b)[0] == a[0]; }
      assert (a + d + b)[1..] == a[1..] + d + b;
      FindFirstAfterFreeText(a[1..], d, b);
    } else {
      assert (a + d + b)[..|d|] == d;
    }
  }

  lemma {:induction false} FindFirstInFreeText(a: string, d: string)
    requires |d| > 0 && d[0] !in a
    ensures FindFirst(a, d) == None
    decreases |a|
  {
    if |a| >= |d| {
      assert a[..|d|] != d by { assert a[0] != d[0]; }
      FindFirstInFreeText(a[1..], d);
    }
  }

  /** Joining pieces that lack the separator's first character and splitting again gives the pieces back. */
  lemma {:induction false} SplitJoin(parts: seq<string>, d: string)
    requires |d| > 0 && |parts| >= 1
    requires forall k :: 0 <= k < |parts| ==> d[0] !in parts[k]
    ensures Split(Join(parts, d), d) == parts
    decreases |parts|
  {
    if |parts| == 1 {
      FindFirstInFreeText(parts[0], d);
    } else {
      var rest := Join(parts[1..], d);
      FindFirstAfterFreeText(parts[0], d, rest);
      var s := parts[0] + d + rest;
      assert s[..|parts[0]|] == parts[0];
      assert s[|parts[0]| + |d|..] == rest;
      SplitJoin(parts[1..], d);
    }
  }

  // ----- int() -----

  predicate IsDigit(c: char) { '0' <= c <= '9' }

  predicate AllDigits(s: string) { forall i :: 0 <= i < |s| ==> IsDigit(s[i]) }

  function DigitValue(c: char): nat
    requires IsDigit(c)
  {
    (c as int) - ('0' as int)
  }

  function DigitChar(n: nat): (c: char)
    requires n < 10
    ensures IsDigit(c) && DigitValue(c) == n
  {
    (('0' as int) + n) as char
  }

  /** Value of a decimal digit string, most significant digit first. */
  function DigitsValue(s: string): nat
    requires AllDigits(s)
    decreases |s|
  {
    if |s| == 0 then 0 else 10 * DigitsValue(s[..|s| - 1]) + DigitValue(s[|s| - 1])
  }

  /** `int(s)`: an optional `+` or `-` followed by one or more ASCII digits; anything else is a `ValueError` (`None`). */
  function ParseInt(s: string): (r: Option<int>)
    ensures r.Some? ==> |s| > 0
    ensures r.Some? <==> (|s| > 0 && AllDigits(s)) || (|s| > 1 && (s[0] == '+' || s[0] == '-') && AllDigits(s[1..]))
  {
    if |s| > 0 && (s[0] == '+' || s[0] == '-') then
      var ds := s[1..];
      if |ds| > 0 && AllDigits(ds) then
        Some(if s[0] == '-' then -(DigitsValue(ds) as int) else DigitsValue(ds))
      else None
    else if |s| > 0 && AllDigits(s) then Some(DigitsValue(s))
    else None
  }

  /** Decimal digits of a natural number, as Python's `str` writes them. */
  function NatToDigits(n: nat): string
    decreases n
  {
    if n < 10 then [DigitChar(n)] else NatToDigits(n / 10) + [DigitChar(n % 10)]
  }

  /** `str(n)` for an integer. */
  function IntToString(n: int): string {
    if n < 0 then "-" + NatToDigits(-n) else NatToDigits(n)
  }

  lemma {:induction false} NatToDigitsValue(n: nat)
    ensures |NatToDigits(n)| > 0 && AllDigits(NatToDigits(n))
    ensures DigitsValue(NatToDigits(n)) == n
    decreases n
  {
    if n >= 10 {
      NatToDigitsValue(n / 10);
      var s := NatToDigits(n);
      assert s[..|s| - 1] == NatToDigits(n / 10);
    }
  }

  /** `int(str(n)) == n` for every integer. */
  lemma ParseIntToString(n: int)
    ensures ParseInt(IntToString(n)) == Some(n)
  {
    var m := if n < 0 then -n else n;
    NatToDigitsValue(m);
    var s := IntToString(n);
    if n < 0 {
      assert s[1..] == NatToDigits(m);
    } else {
      assert s[0] == NatToDigits(m)[0];
    }
  }

  /** `int(text) if text else 0`: empty text counts as 0, otherwise `int()` of it (a failure gives `None`). */
  function IntOrZero(text: string): (r: Option<int>)
    ensures text == "" ==> r == Some(0)
    ensures r.Some? <==> text == "" || ParseInt(text).Some?
  {
    if text == "" then Some(0) else ParseInt(text)
  }

  /** A single unsigned digit is read as its value. */
  lemma ParseIntOneDigit(s: string)
    requires |s| == 1 && IsDigit(s[0])
    ensures ParseInt(s) == Some(DigitValue(s[0]))
  {
    assert s[..0] == "";
    assert s[0] != '+' && s[0] != '-';
    assert AllDigits(s);
    assert DigitsValue(s) == 10 * DigitsValue(s[..0]) + DigitValue(s[0]);
  }

  // ----- float() -----

  function Pow10(k: nat): (r: nat)
    ensures r >= 1
  {
    if k == 0 then 1 else 10 * Pow10(k - 1)
  }

  /** Unsigned decimal: `digits`, `digits.`, `.digits` or `digits.digits`, with at least one digit. */
  function ParseUnsignedDecimal(s: string): Option<real> {
    match FindFirst(s, ".")
    case None =>
      if |s| > 0 && AllDigits(s) then Some(DigitsValue(s) as real) else None
    case Some(i) =>
      var whole, frac := s[..i], s[i + 1..];
      if AllDigits(whole) && AllDigits(frac) && |whole| + |frac| > 0 then
        Some(DigitsValue(whole) as real + DigitsValue(frac) as real / Pow10(|frac|) as real)
      else None
  }

  /** `float(s)` for decimal notation with an optional sign; anything else is a `ValueError` (`None`). */
  function ParseFloat(s: string): (r: Option<real>)
    ensures r.Some? ==> |s| > 0
  {
    if |s| > 0 && (s[0] == '+' || s[0] == '-') then
      match ParseUnsignedDecimal(s[1..])
      case None => None
      case Some(v) => Some(if s[0] == '-' then -v else v)
    else ParseUnsignedDecimal(s)
  }

  lemma DotFreeDigits(s: string)
    requires AllDigits(s)
    ensures FindFirst(s, ".") == None
  {
    assert forall i :: 0 <= i < |s| ==> s[i] != '.';
    FindFirstInFreeText(s, ".");
  }

  /** Text that `int()` accepts is accepted by `float()` with the same value. */
  lemma ParseFloatOfIntText(s: string)
    requires ParseInt(s).Some?
    ensures ParseFloat(s) == Some(ParseInt(s).value as real)
  {
    if s[0] == '+' || s[0] == '-' {
      DotFreeDigits(s[1..]);
    } else {
      DotFreeDigits(s);
    }
  }
}
