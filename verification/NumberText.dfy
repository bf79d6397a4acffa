/** Decimal numbers as text: how printf writes them, how atoi reads them back, and the digit
    runs of a text. */
module NumberText {

  const INT_MIN := -0x8000_0000
  const INT_MAX := 0x7fff_ffff
  const LONG_MAX := 0x7fff_ffff_ffff_ffff

  predicate IsInt(x: int) { INT_MIN <= x <= INT_MAX }

  predicate IsDigit(c: char) { '0' <= c <= '9' }

  predicate AllDigits(s: string) {
    forall i :: 0 <= i < |s| ==> IsDigit(s[i])
  }

  function DigitValue(c: char): nat
    requires IsDigit(c)
  {
    c as int - '0' as int
  }

  function Digit(d: nat): (c: char)
    requires d < 10
    ensures IsDigit(c) && DigitValue(c) == d
  {
    '0' + d as char
  }

  /** The number a digit string denotes. */
  function Value(s: string): nat
    requires AllDigits(s)
  {
    if s == [] then 0 else 10 * Value(s[..|s| - 1]) + DigitValue(s[|s| - 1])
  }

  /** The ten digits, in order. */
  lemma DigitsInOrder(d: nat)
    requires d < 10
    ensures Digit(d) == "0123456789"[d] && DigitValue("0123456789"[d]) == d
  {
  }

  lemma ValueOfOne(c: char)
    requires IsDigit(c)
    ensures Value([c]) == DigitValue(c)
  {
    assert [c][..0] == [];
  }

  lemma Shift(x: nat, y: nat, p: nat, d: nat)
    ensures 10 * (x * p + y) + d == x * (10 * p) + (10 * y + d)
  {
  }

  /** Digit strings are numbers in positional notation: what comes first counts as many powers of
      ten more as there are digits behind it. */
  lemma {:induction false} ValueOfConcatenation(s: string, t: string)
    requires AllDigits(s) && AllDigits(t)
    ensures Value(s + t) == Value(s) * Pow10(|t|) + Value(t)
    decreases |t|
  {
    if t == [] {
      assert s + t == s;
    } else {
      var n := |t| - 1;
      ValueOfConcatenation(s, t[..n]);
      assert (s + t)[..|s + t| - 1] == s + t[..n];
      Shift(Value(s), Value(t[..n]), Pow10(n), DigitValue(t[n]));
    }
  }

  /** A leading zero changes nothing. */
  lemma LeadingZero(s: string)
    requires AllDigits(s)
    ensures Value(['0'] + s) == Value(s)
  {
    ValueOfConcatenation(['0'], s);
    ValueOfOne('0');
  }

  /** The text of %zu. */
  function DecimalText(n: nat): (s: string)
    ensures AllDigits(s) && |s| > 0
  {
    if n < 10 then [Digit(n)] else DecimalText(n / 10) + [Digit(n % 10)]
  }

  function Magnitude(x: int): nat {
    if x < 0 then -x else x
  }

  /** The text of %d. */
  function IntText(x: int): string {
    (if x < 0 then "-" else "") + DecimalText(Magnitude(x))
  }

  lemma {:induction false} ValueOfText(n: nat)
    ensures Value(DecimalText(n)) == n
  {
    if n >= 10 {
      var s := DecimalText(n);
      ValueOfText(n / 10);
      assert s[..|s| - 1] == DecimalText(n / 10);
    } else {
      assert DecimalText(n)[..0] == [];
    }
  }

  function Pow10(k: nat): nat {
    if k == 0 then 1 else 10 * Pow10(k - 1)
  }

  /** A text of k digits is a number from 10^(k-1) up to 10^k. */
  lemma {:induction false} TextLength(n: nat, k: nat)
    requires k > 0
    ensures |DecimalText(n)| <= k <==> n < Pow10(k)
  {
    if k == 1 {
      assert Pow10(1) == 10;
    } else if n < 10 {
      PowPositive(k - 1);
    } else {
      TextLength(n / 10, k - 1);
      assert n / 10 < Pow10(k - 1) <==> n < 10 * Pow10(k - 1);
    }
  }

  lemma {:induction false} PowPositive(k: nat)
    ensures Pow10(k) > 0
  {
    if k > 0 {
      PowPositive(k - 1);
    }
  }

  // --- Reading back ----------------------------------------------------------------------

  /** The conversion of a long to a 32-bit int. */
  function ToInt(x: int): (r: int)
    ensures IsInt(r) && (IsInt(x) ==> r == x)
  {
    var m := x % 0x1_0000_0000;
    if m > INT_MAX then m - 0x1_0000_0000 else m
  }

  /** atoi on a string of digits, as the GNU library has it: strtol, which stops at LONG_MAX,
      and then a conversion to int. */
  function Atoi(s: string): int
    requires AllDigits(s)
  {
    ToInt(if Value(s) > LONG_MAX then LONG_MAX else Value(s))
  }

  /** atoi is right exactly on the numbers that fit in an int. */
  lemma AtoiExact(s: string)
    requires AllDigits(s)
    ensures Atoi(s) == Value(s) <==> Value(s) <= INT_MAX
  {
  }

  /** What atoi gives is always an int, congruent modulo 2^32 to the number, or to the greatest
      64-bit number when the number is greater. */
  lemma AtoiWraps(s: string)
    requires AllDigits(s)
    ensures IsInt(Atoi(s))
    ensures Value(s) <= LONG_MAX ==> (Value(s) - Atoi(s)) % 0x1_0000_0000 == 0
    ensures Value(s) > LONG_MAX ==> Atoi(s) == -1
  {
  }

  // --- Digit runs --------------------------------------------------------------------------

  function RunEnd(s: string, from: nat): (hi: nat)
    requires from <= |s|
    ensures from <= hi <= |s|
    ensures forall i :: from <= i < hi ==> IsDigit(s[i])
    ensures hi == |s| || !IsDigit(s[hi])
    decreases |s| - from
  {
    if from < |s| && IsDigit(s[from]) then RunEnd(s, from + 1) else from
  }

  /** The digit runs of a text, from left to right. */
  function Runs(s: string): (r: seq<string>)
    ensures forall k :: 0 <= k < |r| ==> r[k] != [] && AllDigits(r[k])
    decreases |s|
  {
    if s == [] then []
    else if !IsDigit(s[0]) then Runs(s[1..])
    else
      var k := RunEnd(s, 0);
      [s[..k]] + Runs(s[k..])
  }

  /** What atoi makes of the runs. */
  function Converted(r: seq<string>): (a: seq<int>)
    requires forall k :: 0 <= k < |r| ==> AllDigits(r[k])
    ensures |a| == |r| && forall k :: 0 <= k < |r| ==> a[k] == Atoi(r[k])
  {
    seq(|r|, k requires 0 <= k < |r| => Atoi(r[k]))
  }

  function Numbers(s: string): seq<int> {
    Converted(Runs(s))
  }

  lemma {:induction false} RunEndThere(s: string, from: nat, hi: nat)
    requires from <= hi <= |s|
    requires forall i :: from <= i < hi ==> IsDigit(s[i])
    requires hi == |s| || !IsDigit(s[hi])
    ensures RunEnd(s, from) == hi
    decreases hi - from
  {
    if from < hi {
      RunEndThere(s, from + 1, hi);
    }
  }

  /** A run followed by something that is no digit comes out as it is. */
  lemma RunsTake(d: string, s: string)
    requires AllDigits(d) && d != [] && (s == [] || !IsDigit(s[0]))
    ensures Runs(d + s) == [d] + Runs(s)
  {
    RunEndThere(d + s, 0, |d|);
    assert (d + s)[..|d|] == d && (d + s)[|d|..] == s;
  }

  /** Text without digits is passed over. */
  lemma {:induction false} RunsSkip(p: string, s: string)
    requires forall i :: 0 <= i < |p| ==> !IsDigit(p[i])
    ensures Runs(p + s) == Runs(s)
    decreases |p|
  {
    if p == [] {
      assert p + s == s;
    } else {
      assert (p + s)[1..] == p[1..] + s;
      RunsSkip(p[1..], s);
    }
  }

  // --- The same runs by position ------------------------------------------------------------

  /** s[lo..hi] is a digit run that can be extended on neither side. */
  predicate MaximalRun(s: string, lo: int, hi: int) {
    && 0 <= lo < hi <= |s|
    && (forall i :: lo <= i < hi ==> IsDigit(s[i]))
    && (lo == 0 || !IsDigit(s[lo - 1]))
    && (hi == |s| || !IsDigit(s[hi]))
  }

  /** Nothing of the run at `from`, if there is one, lies before it. */
  predicate Boundary(s: string, from: nat)
    requires from <= |s|
  {
    from == 0 || from == |s| || !IsDigit(s[from - 1]) || !IsDigit(s[from])
  }

  function Spans(s: string, from: nat): (r: seq<(nat, nat)>)
    requires from <= |s|
    ensures forall k :: 0 <= k < |r| ==> r[k].0 <= r[k].1 <= |s|
    decreases |s| - from
  {
    if from == |s| then []
    else if !IsDigit(s[from]) then Spans(s, from + 1)
    else
      var hi := RunEnd(s, from + 1);
      [(from, hi)] + Spans(s, hi)
  }

  lemma {:induction false} SpanIsMaximal(s: string, from: nat, k: nat)
    requires from <= |s| && Boundary(s, from) && k < |Spans(s, from)|
    ensures var (lo, hi) := Spans(s, from)[k]; lo >= from && MaximalRun(s, lo, hi)
    decreases |s| - from
  {
    if !IsDigit(s[from]) {
      SpanIsMaximal(s, from + 1, k);
    } else if k > 0 {
      SpanIsMaximal(s, RunEnd(s, from + 1), k - 1);
    }
  }

  lemma {:induction false} MaximalIsSpan(s: string, from: nat, lo: nat, hi: nat) returns (k: nat)
    requires from <= |s| && from <= lo && MaximalRun(s, lo, hi)
    ensures k < |Spans(s, from)| && Spans(s, from)[k] == (lo, hi)
    decreases |s| - from
  {
    if !IsDigit(s[from]) {
      k := MaximalIsSpan(s, from + 1, lo, hi);
    } else if lo == from {
      OneEnd(s, lo, hi, RunEnd(s, from + 1));
      k := 0;
    } else {
      k := MaximalIsSpan(s, RunEnd(s, from + 1), lo, hi);
      k := k + 1;
    }
  }

  lemma {:induction false} SpansIncrease(s: string, from: nat, j: nat, k: nat)
    requires from <= |s| && Boundary(s, from) && j < k < |Spans(s, from)|
    ensures Spans(s, from)[j].1 < Spans(s, from)[k].0
    decreases |s| - from
  {
    if !IsDigit(s[from]) {
      SpansIncrease(s, from + 1, j, k);
    } else {
      var end := RunEnd(s, from + 1);
      SpanIsMaximal(s, end, k - 1);
      if j > 0 {
        SpansIncrease(s, end, j - 1, k - 1);
      }
    }
  }

  /** The spans are exactly the maximal runs, in increasing order. */
  lemma SpansAreMaximalRuns(s: string)
    ensures forall lo: nat, hi: nat :: (lo, hi) in Spans(s, 0) <==> MaximalRun(s, lo, hi)
    ensures forall j, k :: 0 <= j < k < |Spans(s, 0)| ==> Spans(s, 0)[j].1 < Spans(s, 0)[k].0
  {
    forall lo: nat, hi: nat ensures (lo, hi) in Spans(s, 0) <==> MaximalRun(s, lo, hi) {
      if (lo, hi) in Spans(s, 0) {
        var k :| 0 <= k < |Spans(s, 0)| && Spans(s, 0)[k] == (lo, hi);
        SpanIsMaximal(s, 0, k);
      } else if MaximalRun(s, lo, hi) {
        var k := MaximalIsSpan(s, 0, lo, hi);
      }
    }
    forall j, k | 0 <= j < k < |Spans(s, 0)| ensures Spans(s, 0)[j].1 < Spans(s, 0)[k].0 {
      SpansIncrease(s, 0, j, k);
    }
  }

  lemma OneEnd(s: string, lo: nat, h: nat, hi: nat)
    requires MaximalRun(s, lo, h) && lo < hi <= |s|
    requires forall i :: lo <= i < hi ==> IsDigit(s[i])
    requires hi == |s| || !IsDigit(s[hi])
    ensures h == hi
  {
    RunEndThere(s, lo, h);
    RunEndThere(s, lo, hi);
  }

  /** Runs cuts the text at the spans. */
  lemma {:induction false} RunsAreSpans(s: string, from: nat)
    requires from <= |s|
    ensures |Runs(s[from..])| == |Spans(s, from)|
    ensures forall k :: 0 <= k < |Spans(s, from)| ==>
      Runs(s[from..])[k] == s[Spans(s, from)[k].0..Spans(s, from)[k].1]
    decreases |s| - from
  {
    if from < |s| {
      var t := s[from..];
      if !IsDigit(s[from]) {
        assert t[1..] == s[from + 1..];
        RunsAreSpans(s, from + 1);
      } else {
        var hi := RunEnd(s, from + 1);
        RunEndThere(t, 0, hi - from);
        assert t[hi - from..] == s[hi..];
        assert t[..hi - from] == s[from..hi];
        RunsAreSpans(s, hi);
      }
    }
  }
}
