/** String helpers with Python's meaning: `str(int)`, `int(str)` restricted to
    an optional sign and ASCII digits, the negative-stop slice `s[:-n]`, and
    `str.replace` with a non-empty pattern. */
module Text {
  import opened Wrappers

  predicate IsDigit(c: char) {
    '0' <= c <= '9'
  }

  predicate AllDigits(s: string) {
    forall i :: 0 <= i < |s| ==> IsDigit(s[i])
  }

  function DigitChar(d: nat): (c: char)
    requires d < 10
    ensures IsDigit(c) && (c as int) - ('0' as int) == d
  {
    (('0' as int) + d) as char
  }

  /** Decimal value of a run of ASCII digits, most significant first. */
  function DigitsValue(s: string): nat
    requires AllDigits(s)
  {
    if |s| == 0 then 0
    else DigitsValue(s[..|s| - 1]) * 10 + ((s[|s| - 1] as int) - ('0' as int))
  }

  /** `str(n)` for a natural number. */
  function NatToString(n: nat): (s: string)
    ensures |s| > 0 && AllDigits(s)
  {
    if n < 10 then [DigitChar(n)] else NatToString(n / 10) + [DigitChar(n % 10)]
  }

  /** `str(n)` for any integer: a minus sign, then the magnitude. */
  function IntToString(n: int): (s: string)
    ensures |s| > 0
    ensures n < 0 <==> s[0] == '-'
  {
    if n < 0 then "-" + NatToString(-n) else NatToString(n)
  }

  /** `int(s)` on the inputs the model admits: an optional `+` or `-`
      followed by one or more ASCII digits; anything else is rejected. */
  function ParseInt(s: string): (r: Option<int>)
    ensures r.Some? <==>
      (|s| > 0 && AllDigits(s)) ||
      (|s| > 1 && (s[0] == '-' || s[0] == '+') && AllDigits(s[1..]))
    ensures r.Some? && |s| > 0 && s[0] == '-' ==> r.value <= 0
    ensures r.Some? && |s| > 0 && s[0] != '-' ==> r.value >= 0
  {
    if |s| > 0 && (s[0] == '-' || s[0] == '+') then
      var body := s[1..];
      if |body| > 0 && AllDigits(body) then
        var magnitude: int := DigitsValue(body);
        Some(if s[0] == '-' then -magnitude else magnitude)
      else None
    else if |s| > 0 && AllDigits(s) then Some(DigitsValue(s))
    else None
  }

  lemma {:induction false} NatToStringValue(n: nat)
    ensures DigitsValue(NatToString(n)) == n
  {
    if n >= 10 {
      var s := NatToString(n);
      assert s[..|s| - 1] == NatToString(n / 10);
      NatToStringValue(n / 10);
    }
  }

  /** `int(str(n)) == n`: the parser inverts the printer. */
  lemma ParseIntRoundTrip(n: int)
    ensures ParseInt(IntToString(n)) == Some(n)
  {
    if n < 0 {
      NatToStringValue(-n);
      assert IntToString(n)[1..] == NatToString(-n);
    } else {
      NatToStringValue(n);
    }
  }

  /** A leading zero adds nothing to a digit string's value. */
  lemma {:induction false} DigitsValueLeadingZero(s: string)
    requires AllDigits(s)
    ensures AllDigits("0" + s) && DigitsValue("0" + s) == DigitsValue(s)
    decreases |s|
  {
    var t := "0" + s;
    assert forall i :: 1 <= i < |t| ==> t[i] == s[i - 1];
    if |s| > 0 {
      assert t[..|t| - 1] == "0" + s[..|s| - 1];
      assert t[|t| - 1] == s[|s| - 1];
      DigitsValueLeadingZero(s[..|s| - 1]);
    } else {
      assert t[..0] == [];
    }
  }

  /** `int("0" + s) == int(s)` for digits `s`: leading zeros are ignored. */
  lemma ParseIntLeadingZero(s: string)
    requires |s| > 0 && AllDigits(s)
    ensures ParseInt("0" + s) == ParseInt(s)
  {
    DigitsValueLeadingZero(s);
  }

  /** `int("+" + s) == int(s)` for digits `s`. */
  lemma ParseIntPlus(s: string)
    requires |s| > 0 && AllDigits(s)
    ensures ParseInt("+" + s) == ParseInt(s)
  {
    assert ("+" + s)[1..] == s;
  }

  /** `int("-" + s) == -int(s)` for digits `s`. */
  lemma ParseIntMinus(s: string)
    requires |s| > 0 && AllDigits(s)
    ensures ParseInt("-" + s) == Some(-ParseInt(s).value)
  {
    assert ("-" + s)[1..] == s;
  }

  /** Python's `s[:-n]` for `n >= 1`: everything but the last `n` characters,
      or the empty string when `s` is not longer than `n`. */
  function DropSuffix(s: string, n: nat): (r: string)
    requires n >= 1
    ensures |r| == if |s| >= n then |s| - n else 0
    ensures r <= s
  {
    if |s| >= n then s[..|s| - n] else ""
  }

  lemma DropSuffixAppend(s: string, suffix: string)
    requires |suffix| >= 1
    ensures DropSuffix(s + suffix, |suffix|) == s
  {
    assert (s + suffix)[..|s|] == s;
  }

  /** `pat` occurs in `s` starting at position `i`. */
  predicate OccursAt(s: string, pat: string, i: nat) {
    i + |pat| <= |s| && s[i..i + |pat|] == pat
  }

  predicate Occurs(s: string, pat: string) {
    exists i: nat | i <= |s| :: OccursAt(s, pat, i)
  }

  /** `s.replace(pat, rep)`: every non-overlapping occurrence of `pat`,
      scanning left to right, is replaced by `rep`. */
  function Replace(s: string, pat: string, rep: string): (r: string)
    requires |pat| > 0
    ensures |rep| == |pat| ==> |r| == |s|
    ensures |rep| >= |pat| ==> |r| >= |s|
    ensures |rep| <= |pat| ==> |r| <= |s|
    decreases |s|
  {
    if |s| < |pat| then s
    else if s[..|pat|] == pat then rep + Replace(s[|pat|..], pat, rep)
    else [s[0]] + Replace(s[1..], pat, rep)
  }

  /** Without an occurrence of the pattern, `replace` is the identity. */
  lemma {:induction false} ReplaceAbsent(s: string, pat: string, rep: string)
    requires |pat| > 0
    requires !Occurs(s, pat)
    ensures Replace(s, pat, rep) == s
    decreases |s|
  {
    if |s| >= |pat| {
      assert !OccursAt(s, pat, 0);
      assert s[..|pat|] != pat;
      forall i: nat | i <= |s[1..]| && OccursAt(s[1..], pat, i)
        ensures false
      {
        assert s[1..][i..i + |pat|] == s[i + 1..i + 1 + |pat|];
        assert OccursAt(s, pat, i + 1);
      }
      ReplaceAbsent(s[1..], pat, rep);
    }
  }

  /** Replacing a pattern by itself changes nothing. */
  lemma {:induction false} ReplaceSelf(s: string, pat: string)
    requires |pat| > 0
    ensures Replace(s, pat, pat) == s
    decreases |s|
  {
    if |s| >= |pat| {
      if s[..|pat|] == pat {
        ReplaceSelf(s[|pat|..], pat);
        assert s == s[..|pat|] + s[|pat|..];
      } else {
        ReplaceSelf(s[1..], pat);
        assert s == [s[0]] + s[1..];
      }
    }
  }

  /** A leading occurrence is replaced and the scan resumes after it. */
  lemma ReplaceLeading(pat: string, rest: string, rep: string)
    requires |pat| > 0
    ensures Replace(pat + rest, pat, rep) == rep + Replace(rest, pat, rep)
  {
    var s := pat + rest;
    assert s[..|pat|] == pat;
    assert s[|pat|..] == rest;
  }

  /** A character that does not start an occurrence is kept, and the scan
      moves on to the next one. */
  lemma ReplaceSkip(c: char, rest: string, pat: string, rep: string)
    requires |pat| > 0
    requires !OccursAt([c] + rest, pat, 0)
    ensures Replace([c] + rest, pat, rep) == [c] + Replace(rest, pat, rep)
  {
    var s := [c] + rest;
    assert s[1..] == rest;
    if |s| < |pat| {
      assert Replace(rest, pat, rep) == rest;
    } else {
      assert s[0..0 + |pat|] == s[..|pat|];
    }
  }

  /** A stretch of text in which no occurrence starts is kept as it is, and
      replacing continues after it: with ReplaceLeading and ReplaceAbsent
      this determines `replace` on every string. */
  lemma {:induction false} ReplaceKeepsPrefix(a: string, b: string, pat: string, rep: string)
    requires |pat| > 0
    requires forall i :: 0 <= i < |a| ==> !OccursAt(a + b, pat, i)
    ensures Replace(a + b, pat, rep) == a + Replace(b, pat, rep)
    decreases |a|
  {
    if |a| > 0 {
      var s := a + b;
      assert s == [a[0]] + (a[1..] + b);
      forall i | 0 <= i < |a[1..]|
        ensures !OccursAt(a[1..] + b, pat, i)
      {
        assert (a[1..] + b) == s[1..];
        if OccursAt(a[1..] + b, pat, i) {
          assert s[1..][i..i + |pat|] == s[i + 1..i + 1 + |pat|];
          assert OccursAt(s, pat, i + 1);
        }
      }
      assert !OccursAt(s, pat, 0);
      ReplaceSkip(a[0], a[1..] + b, pat, rep);
      ReplaceKeepsPrefix(a[1..], b, pat, rep);
      assert a == [a[0]] + a[1..];
    } else {
      assert a + b == b;
    }
  }
}
