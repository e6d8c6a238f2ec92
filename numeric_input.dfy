/**
 * The numeric input grammar of a grid cell. Raw text is accepted only when
 * it matches /^\d*\.?\d*$/ (digits, an optional decimal point, digits);
 * accepted text is committed through `parseFloat`, with the empty text
 * standing for "0". The only accepted text `parseFloat` cannot read is
 * ".", which yields NaN.
 */
module NumericInput {
  import opened Wrappers

  /** `\d` of a JavaScript regular expression without the `u` flag. */
  predicate IsDigit(c: char)
  {
    '0' <= c <= '9'
  }

  predicate AllDigits(s: string)
  {
    forall k :: 0 <= k < |s| ==> IsDigit(s[k])
  }

  /** Length of the leading run of digits of `s`. */
  function DigitRun(s: string): (n: nat)
    ensures n <= |s|
    ensures forall k :: 0 <= k < n ==> IsDigit(s[k])
    ensures n < |s| ==> !IsDigit(s[n])
  {
    if s == [] || !IsDigit(s[0]) then 0 else 1 + DigitRun(s[1..])
  }

  /** `s` matches /^\d*\.?\d*$/: a run of digits, then either the end or a
      decimal point followed only by digits. */
  predicate MatchesNumeric(s: string)
  {
    var n := DigitRun(s);
    n == |s| || (s[n] == '.' && AllDigits(s[n + 1..]))
  }

  /** Number of decimal points in `s`. */
  function DotCount(s: string): nat
  {
    if s == [] then 0 else (if s[0] == '.' then 1 else 0) + DotCount(s[1..])
  }

  lemma {:induction false} DotCountDigits(s: string)
    requires AllDigits(s)
    ensures DotCount(s) == 0
  {
    if s != [] {
      DotCountDigits(s[1..]);
    }
  }

  lemma {:induction false} DotCountSplit(s: string, n: nat)
    requires n <= |s|
    ensures DotCount(s) == DotCount(s[..n]) + DotCount(s[n..])
  {
    if n > 0 {
      DotCountSplit(s[1..], n - 1);
      assert s[1..][..n - 1] == s[..n][1..];
      assert s[1..][n - 1..] == s[n..];
    }
  }

  /** The grammar accepts exactly the texts made of digits and decimal points
      that hold at most one decimal point. */
  lemma MatchesNumericIff(s: string)
    ensures MatchesNumeric(s) <==>
      (forall k :: 0 <= k < |s| ==> IsDigit(s[k]) || s[k] == '.') && DotCount(s) <= 1
  {
    var n := DigitRun(s);
    DotCountSplit(s, n);
    DotCountDigits(s[..n]);
    if n < |s| {
      var rest := s[n..];
      assert rest[0] == s[n];
      assert rest[1..] == s[n + 1..];
      if s[n] == '.' {
        if AllDigits(s[n + 1..]) {
          DotCountDigits(s[n + 1..]);
        } else {
          var k :| 0 <= k < |s[n + 1..]| && !IsDigit(s[n + 1..][k]);
          if s[n + 1 + k] == '.' {
            DotCountSplit(s[n + 1..], k);
            var tail := s[n + 1..][k..];
            assert tail[0] == '.';
            assert DotCount(tail) >= 1;
          } else {
            assert !IsDigit(s[n + 1 + k]) && s[n + 1 + k] != '.';
          }
        }
      } else {
        assert !IsDigit(s[n]) && s[n] != '.';
      }
    }
  }

  /** Decimal value of a string of digits. */
  function DigitsValue(d: string): nat
    requires AllDigits(d)
  {
    if d == [] then 0 else 10 * DigitsValue(d[..|d| - 1]) + (d[|d| - 1] as int - '0' as int)
  }

  function Pow10(n: nat): (p: nat)
    ensures p > 0
  {
    if n == 0 then 1 else 10 * Pow10(n - 1)
  }

  /** `parseFloat` on accepted text, read as an exact decimal; `None` is NaN.
      Only the empty text and a lone decimal point carry no digit. */
  function ParseNumber(s: string): (r: Option<real>)
    requires MatchesNumeric(s)
    ensures r.None? <==> (s == "" || s == ".")
    ensures r.Some? ==> r.value >= 0.0
  {
    var n := DigitRun(s);
    var whole := s[..n];
    var frac := if n == |s| then "" else s[n + 1..];
    assert n < |s| && n == 0 && |frac| == 0 ==> s == ".";
    if |whole| + |frac| == 0 then None
    else Some(DigitsValue(whole) as real + DigitsValue(frac) as real / Pow10(|frac|) as real)
  }

  /** The number a cell edit commits: empty text counts as "0". */
  function CommittedValue(text: string): (r: Option<real>)
    requires MatchesNumeric(text)
    ensures r.None? <==> text == "."
    ensures text == "" ==> r == Some(0.0)
  {
    var clean := if text == "" then "0" else text;
    assert MatchesNumeric("0") by {
      assert DigitRun("0") == 1 by {
        assert "0"[1..] == [];
      }
    }
    ParseNumber(clean)
  }

  /** Decimal digits of `n`, without leading zeros. This is what
      `Number.prototype.toString` prints for a whole number below 10^21;
      from 10^21 up it prints exponent form, which is not modelled. */
  function NatToString(n: nat): (s: string)
    ensures |s| > 0 && AllDigits(s)
  {
    var d := ['0' + (n % 10) as char];
    if n < 10 then d else NatToString(n / 10) + d
  }

  lemma {:induction false} NatToStringValue(n: nat)
    ensures DigitsValue(NatToString(n)) == n
  {
    var s := NatToString(n);
    if n >= 10 {
      NatToStringValue(n / 10);
      assert s[..|s| - 1] == NatToString(n / 10);
    }
  }

  lemma {:induction false} DigitRunAllDigits(s: string)
    requires AllDigits(s)
    ensures DigitRun(s) == |s|
  {
    if s != [] {
      DigitRunAllDigits(s[1..]);
    }
  }

  /** The decimal digits of a whole number re-read as that number. For a
      cell holding a whole number 0 < n < 10^21 these digits are the focus
      buffer, so committing the buffer unchanged commits the same value. */
  lemma NatToStringRoundTrip(n: nat)
    ensures MatchesNumeric(NatToString(n))
    ensures CommittedValue(NatToString(n)) == Some(n as real)
  {
    var s := NatToString(n);
    DigitRunAllDigits(s);
    NatToStringValue(n);
    assert s[..|s|] == s;
  }

  /** Texts the grammar rejects: a letter, a second decimal point, a sign. */
  lemma RejectedExamples()
    ensures !MatchesNumeric("12a3") && !MatchesNumeric("1.2.3") && !MatchesNumeric("-5")
  {
    assert DigitRun("12a3") == 2 by {
      assert "12a3"[1..] == "2a3" && "2a3"[1..] == "a3";
    }
    assert DigitRun("1.2.3") == 1 by {
      assert "1.2.3"[1..] == ".2.3";
    }
    assert "1.2.3"[2..] == "2.3";
    assert !AllDigits("2.3") by {
      assert "2.3"[1] == '.';
    }
    assert DigitRun("-5") == 0;
  }

  /** The empty text is accepted and commits 0; a lone decimal point is
      accepted but reads as NaN, so it commits nothing. */
  lemma EmptyAndPointExamples()
    ensures MatchesNumeric("") && CommittedValue("") == Some(0.0)
    ensures MatchesNumeric(".") && CommittedValue(".") == None
  {
    assert DigitRun(".") == 0;
    assert "."[1..] == [];
  }

  /** A decimal text commits its exact decimal value. */
  lemma DecimalExample()
    ensures MatchesNumeric("12.5") && CommittedValue("12.5") == Some(12.5)
  {
    assert DigitRun("12.5") == 2 by {
      assert "12.5"[1..] == "2.5" && "2.5"[1..] == ".5";
    }
    assert "12.5"[2] == '.';
    assert "12.5"[..2] == "12" && "12.5"[3..] == "5";
    assert AllDigits("5");
    assert DigitsValue("12") == 12 by {
      assert "12"[..1] == "1";
      assert "1"[..0] == [];
    }
    assert DigitsValue("5") == 5 by {
      assert "5"[..0] == [];
    }
    assert ParseNumber("12.5") == Some(12.0 + 5.0 / 10.0);
  }
}
