/** The employment-length column: rendered as a text when the raw table is
    built, parsed back to an integer when the cleaned table is derived. */
module EmpLength {
  import opened Wrappers

  /** Suffix appended to every rendered text and stripped when parsing. */
  const Suffix: string := " years"

  /** Label of the maximal length, and what the cleaning step rewrites it to. */
  const TopLabel: string := "10+ years"
  const TopRewrite: string := "10 years"

  predicate IsDigit(c: char) {
    '0' <= c <= '9'
  }

  predicate AllDigits(s: string) {
    forall i :: 0 <= i < |s| ==> IsDigit(s[i])
  }

  function DigitChar(d: nat): (c: char)
    requires d < 10
    ensures IsDigit(c)
  {
    ('0' as int + d) as char
  }

  function DigitValue(c: char): (d: nat)
    requires IsDigit(c)
    ensures d < 10
    ensures DigitChar(d) == c
  {
    c as int - '0' as int
  }

  /** Decimal rendering of a non-negative integer, as `str()` and f-strings
      give it: non-empty, digits only, no leading zero. */
  function Decimal(n: nat): (s: string)
    ensures |s| >= 1 && AllDigits(s)
    ensures |s| > 1 ==> s[0] != '0'
    ensures n < 10 <==> |s| == 1
  {
    if n < 10 then [DigitChar(n)] else Decimal(n / 10) + [DigitChar(n % 10)]
  }

  /** Value of a string of decimal digits, most significant first. */
  function DigitsValue(s: string): nat
    requires AllDigits(s)
  {
    if |s| == 0 then 0 else DigitsValue(s[..|s| - 1]) * 10 + DigitValue(s[|s| - 1])
  }

  /** Reading the decimal rendering of `n` gives `n` back. */
  lemma {:induction false} DecimalRoundTrip(n: nat)
    ensures DigitsValue(Decimal(n)) == n
  {
    if n >= 10 {
      var s := Decimal(n);
      assert s[..|s| - 1] == Decimal(n / 10);
      DecimalRoundTrip(n / 10);
    }
  }

  /** Range of numpy's `int64`, the type `.astype(int)` converts to. */
  const Int64Min: int := -0x8000_0000_0000_0000
  const Int64Max: int := 0x7FFF_FFFF_FFFF_FFFF

  /** Strings `int()` accepts here: an optional sign followed by decimal digits. */
  predicate IntSyntax(s: string) {
    (|s| > 0 && AllDigits(s)) || (|s| > 1 && (s[0] == '+' || s[0] == '-') && AllDigits(s[1..]))
  }

  /** The unbounded value `int(s)` gives; anything else raises, which is `None`. */
  function IntValue(s: string): (r: Option<int>)
    ensures r.Some? <==> IntSyntax(s)
    ensures r.Some? && AllDigits(s) ==> r.value >= 0
  {
    if |s| > 0 && (s[0] == '+' || s[0] == '-') then
      var digits := s[1..];
      if |digits| > 0 && AllDigits(digits) then
        var v: int := DigitsValue(digits);
        Some(if s[0] == '-' then -v else v)
      else None
    else if |s| > 0 && AllDigits(s) then Some(DigitsValue(s))
    else None
  }

  /** `.astype(int)` on one string cell: `int()` followed by the conversion to
      `int64`, which raises OverflowError outside the 64-bit range. */
  function ParseInt(s: string): (r: Option<int>)
    ensures r.Some? ==> IntSyntax(s) && Int64Min <= r.value <= Int64Max
    ensures IntSyntax(s) && Int64Min <= IntValue(s).value <= Int64Max ==> r == IntValue(s)
  {
    match IntValue(s)
    case None => None
    case Some(v) => if Int64Min <= v <= Int64Max then Some(v) else None
  }

  /** The conversion reads back the rendering of `n`, with or without a sign,
      exactly when the signed value fits in 64 bits. */
  lemma ParseIntRoundTrip(n: nat)
    ensures ParseInt(Decimal(n)).Some? <==> n <= Int64Max
    ensures n <= Int64Max ==> ParseInt(Decimal(n)) == Some(n)
    ensures n <= Int64Max ==> ParseInt("+" + Decimal(n)) == Some(n)
    ensures -(n as int) >= Int64Min <==> ParseInt("-" + Decimal(n)) == Some(-(n as int))
  {
    var d := Decimal(n);
    DecimalRoundTrip(n);
    assert ("+" + d)[1..] == d;
    assert ("-" + d)[1..] == d;
  }

  /** `s.replace(pat, '')`: every non-overlapping occurrence of `pat`, found
      left to right, is deleted. */
  function RemoveAll(s: string, pat: string): (r: string)
    requires |pat| > 0
    ensures |r| <= |s|
    ensures forall i :: 0 <= i < |r| ==> r[i] in s
    decreases |s|
  {
    if |s| < |pat| then s
    else if s[..|pat|] == pat then RemoveAll(s[|pat|..], pat)
    else [s[0]] + RemoveAll(s[1..], pat)
  }

  /** `pat` occurs in `s` starting at index `i`. */
  predicate OccursAt(s: string, pat: string, i: int) {
    0 <= i && i + |pat| <= |s| && s[i..i + |pat|] == pat
  }

  /** An occurrence of `pat` at the front is deleted and the search goes on
      after it. */
  lemma RemoveAllSkipsMatch(s: string, pat: string)
    requires |pat| > 0
    ensures RemoveAll(pat + s, pat) == RemoveAll(s, pat)
  {
    assert (pat + s)[..|pat|] == pat;
    assert (pat + s)[|pat|..] == s;
  }

  /** Dropping the first character of `s` moves every occurrence one place left. */
  lemma OccursAtTail(s: string, pat: string, i: int)
    requires |s| > 0
    requires OccursAt(s[1..], pat, i)
    ensures OccursAt(s, pat, i + 1)
  {
    assert s[1..][i..i + |pat|] == s[i + 1..i + 1 + |pat|];
  }

  /** A prefix `d` inside which no occurrence of `pat` starts is kept as it is,
      and deletion carries on in the rest. */
  lemma {:induction false} RemoveAllKeepsUnmatched(d: string, t: string, pat: string)
    requires |pat| > 0
    requires forall i :: 0 <= i < |d| ==> !OccursAt(d + t, pat, i)
    ensures RemoveAll(d + t, pat) == d + RemoveAll(t, pat)
    decreases |d|
  {
    var s := d + t;
    if |d| == 0 {
      assert s == t;
    } else if |s| < |pat| {
      assert RemoveAll(t, pat) == t;
    } else {
      assert !OccursAt(s, pat, 0);
      var rest := d[1..];
      assert s[1..] == rest + t;
      forall i | 0 <= i < |rest|
        ensures !OccursAt(rest + t, pat, i)
      {
        if OccursAt(rest + t, pat, i) {
          OccursAtTail(s, pat, i);
        }
      }
      RemoveAllKeepsUnmatched(rest, t, pat);
      assert [d[0]] + rest == d;
    }
  }

  /** When `pat` occurs nowhere in `s`, deletion leaves `s` unchanged. */
  lemma RemoveAllNoOccurrence(s: string, pat: string)
    requires |pat| > 0
    requires forall i :: 0 <= i < |s| ==> !OccursAt(s, pat, i)
    ensures RemoveAll(s, pat) == s
  {
    assert s + [] == s;
    RemoveAllKeepsUnmatched(s, [], pat);
  }

  /** A prefix whose characters never start `pat` survives deletion, and a
      single trailing occurrence of `pat` is removed. */
  lemma RemoveTrailing(d: string, pat: string)
    requires |pat| > 0
    requires forall i :: 0 <= i < |d| ==> d[i] != pat[0]
    ensures RemoveAll(d + pat, pat) == d
  {
    forall i | 0 <= i < |d|
      ensures !OccursAt(d + pat, pat, i)
    {
      assert (d + pat)[i] == d[i];
    }
    RemoveAllKeepsUnmatched(d, pat, pat);
    assert pat + [] == pat;
    RemoveAllSkipsMatch([], pat);
  }

  /** Label of line 49: `"10+ years"` for ten, `"<x> years"` otherwise. */
  function Label(x: nat): (s: string)
    ensures |s| > |Suffix| && s[|s| - |Suffix|..] == Suffix
    ensures s == TopLabel <==> x == 10
  {
    var d := Decimal(x);
    if x == 10 then
      assert d == "10";
      d + "+" + Suffix
    else
      // only a three-digit count gives a label as long as "10+ years", and
      // then its third character is a digit where the top label has '+'
      assert |d| + |Suffix| == |TopLabel| ==> (d + Suffix)[2] == d[2] != TopLabel[2];
      d + Suffix
  }

  /** Lines 108-109: rewrite the top label, strip the suffix, parse an integer.
      `None` is the ValueError the integer conversion raises. Only text that
      holds a digit can be parsed. */
  function Parse(text: string): (r: Option<int>)
    ensures text == TopLabel ==> r == Some(10)
    ensures r.Some? ==> exists i :: 0 <= i < |text| && IsDigit(text[i])
  {
    var rewritten := if text == TopLabel then TopRewrite else text;
    var stripped := RemoveAll(rewritten, Suffix);
    assert text == TopLabel ==>
      ParseInt(stripped) == Some(10) && IsDigit(text[0])
      by {
        if text == TopLabel {
          assert TopRewrite == "10" + Suffix;
          RemoveTrailing("10", Suffix);
          assert DigitsValue("10") == 10;
          assert IntValue("10") == Some(10);
        }
      }
    assert ParseInt(stripped).Some? && text != TopLabel ==>
      IsDigit(stripped[|stripped| - 1]) && stripped[|stripped| - 1] in text;
    ParseInt(stripped)
  }

  /** A value with no digit in it cannot be parsed: the conversion raises. */
  lemma ParseRejectsDigitless(text: string)
    requires forall i :: 0 <= i < |text| ==> !IsDigit(text[i])
    ensures Parse(text) == None
  {
    assert IsDigit(TopLabel[0]);
    assert text != TopLabel;
  }

  /** Parsing a rendered label gives back the number of years, for every
      count that fits in 64 bits and in particular for the 0..10 the script
      draws. */
  lemma {:induction false} LabelRoundTrip(x: nat)
    requires x <= Int64Max
    ensures Parse(Label(x)) == Some(x)
  {
    var d := Decimal(x);
    DecimalRoundTrip(x);
    if x == 10 {
      RemoveTrailing("10", Suffix);
      assert TopRewrite == "10" + Suffix;
      assert IntValue("10") == Some(DigitsValue("10"));
    } else {
      RemoveTrailing(d, Suffix);
      assert RemoveAll(Label(x), Suffix) == d;
      assert d[0] != '+' && d[0] != '-';
    }
  }

  /** A count too large for 64 bits renders to a label whose conversion
      overflows. */
  lemma LabelOverflow(x: nat)
    requires x > Int64Max
    ensures Parse(Label(x)) == None
  {
    var d := Decimal(x);
    RemoveTrailing(d, Suffix);
    assert RemoveAll(Label(x), Suffix) == d;
    ParseIntRoundTrip(x);
  }

  /** Distinct counts get distinct labels: the digits before the suffix are
      the count's rendering, which determines the count. */
  lemma LabelInjective(x: nat, y: nat)
    requires Label(x) == Label(y)
    ensures x == y
  {
    if x != 10 && y != 10 {
      var l := Label(x);
      assert Decimal(x) == l[..|l| - |Suffix|] == Decimal(y);
      DecimalRoundTrip(x);
      DecimalRoundTrip(y);
    }
  }
}
