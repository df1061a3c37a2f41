/** The handful of Python string operations the bot's routing relies on:
    `sub in s`, `s.rsplit(c, 1)`, `s.isdigit()` and `int(s)`. */
module Text {

  import opened Base

  predicate IsDigit(c: char) {
    '0' <= c <= '9'
  }

  /** Every character is a decimal digit (vacuous for the empty string). */
  predicate AllDigits(s: string) {
    forall i :: 0 <= i < |s| ==> IsDigit(s[i])
  }

  /** `s.isdigit()` for ASCII: non-empty and made only of decimal digits. */
  predicate IsDigits(s: string) {
    |s| > 0 && AllDigits(s)
  }

  function DigitValue(c: char): (d: nat)
    requires IsDigit(c)
    ensures d < 10
  {
    (c as int) - ('0' as int)
  }

  function DigitChar(d: nat): (c: char)
    requires d < 10
    ensures IsDigit(c) && DigitValue(c) == d
  {
    ((d + '0' as int) as char)
  }

  /** `int(s)` for a string of decimal digits (leading zeros allowed). */
  function DigitsValue(s: string): nat
    requires AllDigits(s)
    decreases |s|
  {
    if |s| == 0 then 0 else 10 * DigitsValue(s[..|s| - 1]) + DigitValue(s[|s| - 1])
  }

  /** `str(n)` for a non-negative integer. */
  function ShowNat(n: nat): (s: string)
    ensures IsDigits(s)
    decreases n
  {
    if n < 10 then [DigitChar(n)] else ShowNat(n / 10) + [DigitChar(n % 10)]
  }

  /** `int(str(n)) == n`. */
  lemma {:induction false} ShowNatRoundTrip(n: nat)
    ensures DigitsValue(ShowNat(n)) == n
    decreases n
  {
    if n >= 10 {
      var s := ShowNat(n);
      assert s[..|s| - 1] == ShowNat(n / 10);
      ShowNatRoundTrip(n / 10);
    }
  }

  predicate StartsWith(s: string, prefix: string) {
    |prefix| <= |s| && s[..|prefix|] == prefix
  }

  /** Python's `sub in s`. */
  predicate Contains(s: string, sub: string)
    decreases |s|
  {
    StartsWith(s, sub) || (|s| > 0 && Contains(s[1..], sub))
  }

  /** `sub` occurs in `s` at position `i`. */
  predicate OccursAt(s: string, sub: string, i: int) {
    0 <= i && i + |sub| <= |s| && s[i..i + |sub|] == sub
  }

  /** `sub in s` holds exactly when `sub` occurs at some position of `s`. */
  lemma {:induction false} ContainsIffOccurs(s: string, sub: string)
    ensures Contains(s, sub) <==> exists i :: OccursAt(s, sub, i)
    decreases |s|
  {
    if StartsWith(s, sub) {
      assert OccursAt(s, sub, 0);
    } else if |s| > 0 {
      ContainsIffOccurs(s[1..], sub);
      if Contains(s[1..], sub) {
        var i :| OccursAt(s[1..], sub, i);
        assert s[i + 1..i + 1 + |sub|] == s[1..][i..i + |sub|];
        assert OccursAt(s, sub, i + 1);
      }
      if exists i :: OccursAt(s, sub, i) {
        var i :| OccursAt(s, sub, i);
        assert i > 0;
        assert s[1..][i - 1..i - 1 + |sub|] == s[i..i + |sub|];
        assert OccursAt(s[1..], sub, i - 1);
      }
    } else {
      assert forall i :: !OccursAt(s, sub, i);
    }
  }

  /** Whenever `sub in s` and `c` is a character of `sub`, `c` is a character of `s`. */
  lemma {:induction false} ContainsCarriesChar(s: string, sub: string, k: nat)
    requires Contains(s, sub)
    requires k < |sub|
    ensures exists i :: 0 <= i < |s| && s[i] == sub[k]
    decreases |s|
  {
    if StartsWith(s, sub) {
      assert s[..|sub|][k] == sub[k];
    } else {
      ContainsCarriesChar(s[1..], sub, k);
      var i :| 0 <= i < |s[1..]| && s[1..][i] == sub[k];
      assert s[i + 1] == sub[k];
    }
  }

  /** A string of digits never contains a non-digit substring character. */
  lemma {:induction false} DigitsContainOnlyDigits(s: string, sub: string)
    requires AllDigits(s)
    requires |sub| > 0 && !IsDigit(sub[0])
    ensures !Contains(s, sub)
    decreases |s|
  {
    if |s| > 0 {
      assert s[0] != sub[0];
      DigitsContainOnlyDigits(s[1..], sub);
    }
  }

  /** Index of the last occurrence of `c` in `s`, if any. */
  function LastIndexOf(s: string, c: char): (r: Option<nat>)
    ensures r.Some? ==> r.value < |s| && s[r.value] == c
    ensures r.Some? ==> forall j :: r.value < j < |s| ==> s[j] != c
    ensures r.None? <==> forall j :: 0 <= j < |s| ==> s[j] != c
    decreases |s|
  {
    if |s| == 0 then None
    else if s[|s| - 1] == c then Some(|s| - 1)
    else LastIndexOf(s[..|s| - 1], c)
  }

  /** Cutting a string at an occurrence of `c` with no `c` after it gives back
      the two sides: that occurrence is the last one. */
  lemma RSplitAtLast(prefix: string, c: char, suffix: string)
    requires forall j :: 0 <= j < |suffix| ==> suffix[j] != c
    ensures RSplitOnce(prefix + [c] + suffix, c) == [prefix, suffix]
  {
    var s := prefix + [c] + suffix;
    assert s[|prefix|] == c;
    assert forall j :: |prefix| < j < |s| ==> s[j] == suffix[j - |prefix| - 1];
    var i := LastIndexOf(s, c).value;
    assert i == |prefix|;
    assert s[..i] == prefix;
    assert s[i + 1..] == suffix;
  }

  /** Python's `s.rsplit(c, 1)`: `[s]` when `c` does not occur, otherwise the
      text before and after its last occurrence. */
  function RSplitOnce(s: string, c: char): seq<string> {
    match LastIndexOf(s, c)
    case None => [s]
    case Some(i) => [s[..i], s[i + 1..]]
  }

  /** rsplit and re-joining with the separator gives the string back, and the
      right-hand part never contains the separator. */
  lemma RSplitOnceJoin(s: string, c: char)
    ensures var parts := RSplitOnce(s, c);
      && 1 <= |parts| <= 2
      && (|parts| == 1 <==> forall j :: 0 <= j < |s| ==> s[j] != c)
      && (|parts| == 1 ==> parts[0] == s)
      && (|parts| == 2 ==> parts[0] + [c] + parts[1] == s
                           && forall j :: 0 <= j < |parts[1]| ==> parts[1][j] != c)
  {
    var parts := RSplitOnce(s, c);
    if |parts| == 2 {
      var i := LastIndexOf(s, c).value;
      assert parts[0] + [c] + parts[1] == s;
      forall j | 0 <= j < |parts[1]| ensures parts[1][j] != c {
        assert parts[1][j] == s[i + 1 + j];
      }
    }
  }
}
