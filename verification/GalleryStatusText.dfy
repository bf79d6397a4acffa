/** The status line as it travels from the server to the monitors. TCP keeps no message
    boundaries, so what a monitor reads may be several lines run together. */
module GalleryStatusText {
  import opened Sums
  import opened NumberText
  import opened Sequences

  /** Every number followed by a space, the last one too. */
  function StatusText(v: seq<int>): string
    decreases |v|
  {
    if v == [] then "" else IntText(v[0]) + " " + StatusText(v[1..])
  }

  lemma OneMoreNumber(x: int, v: seq<int>, text: string)
    requires StatusText(v) == text
    ensures StatusText([x] + v) == IntText(x) + " " + text
  {
    assert ([x] + v)[1..] == v;
  }

  lemma SmallTexts()
    ensures IntText(12) == "12" && IntText(5) == "5" && IntText(0) == "0" && IntText(3) == "3"
  {
    assert DecimalText(12) == DecimalText(1) + [Digit(2)];
  }

  /** A line in full. */
  lemma Example()
    ensures StatusText([12, 5, 0, 3]) == "12 5 0 3 "
  {
    SmallTexts();
    OneMoreNumber(3, [], "");
    OneMoreNumber(0, [3], "3 ");
    OneMoreNumber(5, [0, 3], "0 3 ");
    OneMoreNumber(12, [5, 0, 3], "5 0 3 ");
    assert [12] + [5, 0, 3] == [12, 5, 0, 3] && [5] + [0, 3] == [5, 0, 3];
  }

  function SkipSpaces(s: string): string {
    if s != [] && s[0] == ' ' then SkipSpaces(s[1..]) else s
  }

  function Digits(s: string): (r: (string, string))
    ensures r.0 + r.1 == s && AllDigits(r.0)
  {
    (s[..RunEnd(s, 0)], s[RunEnd(s, 0)..])
  }

  /** Digits: the number and the rest of the input. */
  function ScanDigits(s: string, negative: bool): Option<(int, string)> {
    var (d, rest) := Digits(s);
    var value: int := Value(d);
    if d == [] then None else Some((if negative then -value else value, rest))
  }

  /** Digits, perhaps after a minus sign. */
  function ScanSigned(s: string): Option<(int, string)> {
    if s != [] && s[0] == '-' then ScanDigits(s[1..], true) else ScanDigits(s, false)
  }

  /** One %d of sscanf. */
  function ScanInt(s: string): Option<(int, string)> {
    ScanSigned(SkipSpaces(s))
  }

  /** sscanf with k times %d. */
  function ScanInts(s: string, k: nat): Option<seq<int>>
    decreases k
  {
    if k == 0 then Some([])
    else match ScanInt(s)
         case None => None
         case Some((x, rest)) =>
           match ScanInts(rest, k - 1)
           case None => None
           case Some(xs) => Some([x] + xs)
  }

  lemma DigitsThere(d: string, rest: string)
    requires AllDigits(d) && (rest == [] || !IsDigit(rest[0]))
    ensures Digits(d + rest) == (d, rest)
  {
    RunEndThere(d + rest, 0, |d|);
  }

  lemma ScanDigitsBack(d: string, rest: string, negative: bool, value: int)
    requires AllDigits(d) && d != [] && (rest == [] || !IsDigit(rest[0]))
    requires value == Value(d)
    ensures ScanDigits(d + rest, negative) == Some((if negative then -value else value, rest))
  {
    DigitsThere(d, rest);
  }

  lemma ScanMinus(s: string)
    ensures ScanSigned(['-'] + s) == ScanDigits(s, true)
  {
    assert (['-'] + s)[1..] == s;
  }

  lemma ScanPlain(s: string)
    requires s != [] && IsDigit(s[0])
    ensures ScanSigned(s) == ScanDigits(s, false)
  {
  }

  lemma ScanSignedBack(x: int, rest: string)
    requires rest == [] || !IsDigit(rest[0])
    ensures ScanSigned(IntText(x) + rest) == Some((x, rest))
  {
    var d := DecimalText(Magnitude(x));
    ValueOfText(Magnitude(x));
    ScanDigitsBack(d, rest, x < 0, Magnitude(x));
    if x < 0 {
      ScanMinus(d + rest);
      Associative(['-'], d, rest);
    } else {
      assert IntText(x) == d && Magnitude(x) == x;
      assert IsDigit((d + rest)[0]);
      ScanPlain(d + rest);
    }
  }

  lemma NoSpaceFirst(x: int, rest: string)
    ensures SkipSpaces(IntText(x) + rest) == IntText(x) + rest
  {
    assert IntText(x)[0] == '-' || IsDigit(IntText(x)[0]);
  }

  lemma ScanIntBack(x: int, rest: string)
    requires rest == [] || !IsDigit(rest[0])
    ensures ScanInt(IntText(x) + rest) == Some((x, rest))
  {
    NoSpaceFirst(x, rest);
    ScanSignedBack(x, rest);
  }

  lemma ScanIntSpace(s: string)
    ensures ScanInt(" " + s) == ScanInt(s)
  {
    SkipOne(s);
  }

  lemma SkipOne(s: string)
    ensures SkipSpaces(" " + s) == SkipSpaces(s)
  {
    assert (" " + s)[1..] == s;
  }

  lemma {:induction false} SpacesDoNotMatter(s: string, k: nat)
    requires k > 0
    ensures ScanInts(" " + s, k) == ScanInts(s, k)
  {
    ScanIntSpace(s);
  }

  lemma ScanOneMore(x: int, tail: string, k: nat, xs: seq<int>)
    requires ScanInts(tail, k) == Some(xs)
    ensures ScanInts(IntText(x) + (" " + tail), k + 1) == Some([x] + xs)
  {
    ScanIntBack(x, " " + tail);
    assert ScanInt(IntText(x) + (" " + tail)) == Some((x, " " + tail));
    if k > 0 {
      SpacesDoNotMatter(tail, k);
    }
  }

  lemma StatusFirst(v: seq<int>, more: string)
    requires v != []
    ensures StatusText(v) + more == IntText(v[0]) + (" " + (StatusText(v[1..]) + more))
  {
    Associative(IntText(v[0]) + " ", StatusText(v[1..]), more);
    Associative(IntText(v[0]), " ", StatusText(v[1..]) + more);
  }

  lemma OneMoreRecovered(v: seq<int>, s: string, tail: string)
    requires v != [] && s == IntText(v[0]) + (" " + tail)
    requires ScanInts(tail, |v| - 1) == Some(v[1..])
    ensures ScanInts(s, |v|) == Some(v)
  {
    ScanOneMore(v[0], tail, |v| - 1, v[1..]);
    HeadAndTail(v);
  }

  predicate Recovers(v: seq<int>, more: string) {
    ScanInts(StatusText(v) + more, |v|) == Some(v)
  }

  lemma RecoverOneMore(v: seq<int>, more: string)
    requires v != [] && Recovers(v[1..], more)
    ensures Recovers(v, more)
  {
    StatusFirst(v, more);
    OneMoreRecovered(v, StatusText(v) + more, StatusText(v[1..]) + more);
  }

  lemma RecoverNone(v: seq<int>, more: string)
    requires v == []
    ensures Recovers(v, more)
  {
  }

  lemma {:induction false} RecoverAll(v: seq<int>, more: string)
    ensures Recovers(v, more)
    decreases |v|
  {
    if v == [] {
      RecoverNone(v, more);
    } else {
      RecoverAll(v[1..], more);
      RecoverOneMore(v, more);
    }
  }

  /** A monitor that reads a status line and whatever has been sent after it, cut off
      anywhere, recovers the numbers of the line. */
  lemma StatusRecovered(v: seq<int>, more: string)
    ensures ScanInts(StatusText(v) + more, |v|) == Some(v)
  {
    RecoverAll(v, more);
  }

  /** Without the space after the last number the next line would run into it: what is read is
      the number both texts make together, and nothing is left. */
  lemma SpaceIsNeeded(x: nat, y: nat)
    ensures ScanInt(IntText(x) + IntText(y)) == Some((Value(DecimalText(x) + DecimalText(y)), ""))
  {
    var d := DecimalText(x) + DecimalText(y);
    NoSpaceFirst(x, IntText(y));
    assert IntText(x) + IntText(y) == d;
    ScanDigitsBack(d, "", false, Value(d));
    assert d + "" == d && IsDigit(d[0]);
    ScanPlain(d);
  }
}
