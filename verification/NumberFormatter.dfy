/** The printer: a header with the count, then the numbers separated by commas, appended one
    by one to a buffer whose size is fixed in advance. */
module NumberFormatter {
  import opened NumberText
  import opened NumberScanner
  import opened Sequences
  import opened Sums

  const MAX_NUMBER_LENGTH := 12

  ghost predicate Ints(a: seq<int>) {
    forall i :: 0 <= i < |a| ==> IsInt(a[i])
  }

  function Header(size: nat): string {
    "there are " + DecimalText(size) + " numbers: "
  }

  /** The numbers as %d prints them. */
  function Texts(a: seq<int>): (r: seq<string>)
    ensures |r| == |a| && forall i :: 0 <= i < |a| ==> r[i] == IntText(a[i])
  {
    seq(|a|, i requires 0 <= i < |a| => IntText(a[i]))
  }

  /** One number, and the separator unless it is the last. */
  function Item(texts: seq<string>, i: nat): string
    requires i < |texts|
  {
    texts[i] + if i < |texts| - 1 then ", " else ""
  }

  /** What i rounds of the appending loop append. */
  function Joined(texts: seq<string>, i: nat): string
    requires i <= |texts|
  {
    if i == 0 then "" else Joined(texts, i - 1) + Item(texts, i - 1)
  }

  function Formatted(a: seq<int>): string {
    Header(|a|) + Joined(Texts(a), |a|)
  }

  function BufferSize(size: nat): nat {
    10 + size * MAX_NUMBER_LENGTH + size * 2 + 1
  }

  /** The text and its terminator fit the buffer that is allocated for them. */
  predicate Fits(a: seq<int>) {
    |Formatted(a)| + 1 <= BufferSize(|a|)
  }

  // --- The program ---------------------------------------------------------------------------

  lemma DigitsHaveNoNul(n: nat)
    ensures '\0' !in DecimalText(n)
  {
    assert !IsDigit('\0');
  }

  lemma HeaderHasNoNul(n: nat)
    ensures '\0' !in Header(n)
  {
    DigitsHaveNoNul(n);
  }

  lemma NumberHasNoNul(x: int)
    ensures '\0' !in IntText(x)
  {
    DigitsHaveNoNul(Magnitude(x));
  }

  /** The buffer holds the C string t. */
  ghost predicate Holds(buffer: string, t: string) {
    |t| < |buffer| && buffer[..|t|] == t && buffer[|t|] == '\0' && '\0' !in t
  }

  lemma HoldsCString(buffer: string, t: string)
    requires Holds(buffer, t)
    ensures CString(buffer) == t && '\0' in buffer
  {
    forall i | 0 <= i < |t| ensures buffer[i] != '\0' {
      assert buffer[i] == t[i];
    }
    CStringAt(buffer, |t|);
  }

  /** Writes a C string at the beginning of the buffer; false where the C code would write
      past the end. */
  method Write(buffer: array<char>, t: string) returns (ok: bool)
    requires '\0' !in t
    modifies buffer
    ensures ok <==> |t| < buffer.Length
    ensures ok ==> Holds(buffer[..], t)
  {
    ok := |t| < buffer.Length;
    if ok {
      for k := 0 to |t|
        invariant buffer[..k] == t[..k]
      {
        buffer[k] := t[k];
      }
      buffer[|t|] := '\0';
      assert buffer[..][..|t|] == t;
    }
  }

  /** strcat: finds the end of the C string in the buffer and appends t there, if it has room. */
  method Append(buffer: array<char>, t: string, ghost start: string) returns (ok: bool)
    requires Holds(buffer[..], start) && '\0' !in t
    modifies buffer
    ensures ok <==> |start| + |t| < buffer.Length
    ensures ok ==> Holds(buffer[..], start + t)
  {
    var end := 0;
    while buffer[end] != '\0'
      invariant 0 <= end <= |start|
      decreases |start| - end
    {
      assert buffer[end] == buffer[..][end];
      end := end + 1;
    }
    assert buffer[..|start|] == start;
    assert buffer[..end] == start;
    ok := end + |t| < buffer.Length;
    if ok {
      for k := 0 to |t|
        invariant buffer[..end + k] == start + t[..k]
      {
        buffer[end + k] := t[k];
      }
      buffer[end + |t|] := '\0';
      assert buffer[..][..end + |t|] == start + t;
    }
  }

  /** One round of the loop. */
  method AppendItem(buffer: array<char>, arr: array<int>, i: nat, ghost texts: seq<string>, ghost start: string)
      returns (ok: bool)
    requires i < arr.Length == |texts| && IsInt(arr[i]) && texts[i] == IntText(arr[i])
    requires Holds(buffer[..], start)
    modifies buffer
    ensures ok <==> |start| + |Item(texts, i)| < buffer.Length
    ensures ok ==> Holds(buffer[..], start + Item(texts, i))
  {
    NumberHasNoNul(arr[i]);
    NumberFits(arr[i]);
    var number := IntText(arr[i]);
    assert |number| + 1 <= MAX_NUMBER_LENGTH;
    ok := Append(buffer, number, start);
    assert start + number + ", " == start + (number + ", ");
    if ok && i < arr.Length - 1 {
      ok := Append(buffer, ", ", start + number);
    }
  }

  lemma {:induction false} JoinedGrows(texts: seq<string>, i: nat)
    requires i <= |texts|
    ensures |Joined(texts, i)| <= |Joined(texts, |texts|)|
    decreases |texts| - i
  {
    if i < |texts| {
      JoinedGrows(texts, i + 1);
    }
  }

  /** The text after another round, which is at most the whole text. */
  lemma NextRound(texts: seq<string>, i: nat, head: string)
    requires i < |texts|
    ensures head + Joined(texts, i + 1) == head + Joined(texts, i) + Item(texts, i)
    ensures |Joined(texts, i)| + |Item(texts, i)| <= |Joined(texts, |texts|)|
  {
    JoinedGrows(texts, i + 1);
    Associative(head, Joined(texts, i), Item(texts, i));
  }

  /** The loop over the numbers. */
  method AppendItems(buffer: array<char>, arr: array<int>, ghost texts: seq<string>, ghost head: string)
      returns (ok: bool)
    requires Ints(arr[..]) && texts == Texts(arr[..])
    requires Holds(buffer[..], head)
    modifies buffer
    ensures ok <==> |head| + |Joined(texts, |texts|)| < buffer.Length
    ensures ok ==> Holds(buffer[..], head + Joined(texts, |texts|))
  {
    assert head + Joined(texts, 0) == head;
    for i := 0 to arr.Length
      invariant arr[..] == old(arr[..])
      invariant Holds(buffer[..], head + Joined(texts, i))
    {
      NextRound(texts, i, head);
      ok := AppendItem(buffer, arr, i, texts, head + Joined(texts, i));
      if !ok {
        return;
      }
    }
    ok := true;
  }

  /** The text of the numbers; None exactly where the C code writes past its buffer. */
  method MakeStringFromArray(arr: array<int>) returns (r: Option<array<char>>)
    requires Ints(arr[..])
    ensures r.Some? <==> Fits(arr[..])
    ensures r.Some? ==> fresh(r.value) && r.value.Length == BufferSize(arr.Length)
    ensures r.Some? ==> '\0' in r.value[..] && CString(r.value[..]) == Formatted(arr[..])
  {
    var buffer := new char[BufferSize(arr.Length)];
    ghost var head, texts := Header(arr.Length), Texts(arr[..]);
    HeaderHasNoNul(arr.Length);
    var ok := Write(buffer, Header(arr.Length));
    if ok {
      ok := AppendItems(buffer, arr, texts, head);
    }
    if !ok {
      return None;
    }
    HoldsCString(buffer[..], head + Joined(texts, |texts|));
    r := Some(buffer);
  }

  /** The separator stands between the numbers. */
  lemma JoinedThree(t: seq<string>)
    requires |t| == 3
    ensures Joined(t, 3) == t[0] + ", " + t[1] + ", " + t[2]
  {
    assert Joined(t, 1) == t[0] + ", ";
    assert Joined(t, 2) == t[0] + ", " + (t[1] + ", ");
    assert Item(t, 2) == t[2];
  }

  lemma SmallTexts()
    ensures IntText(7) == "7" && IntText(-12) == "-12" && IntText(0) == "0"
  {
    assert DecimalText(12) == DecimalText(1) + [Digit(2)];
  }

  /** A text in full, and the text of no numbers. */
  lemma Example()
    ensures Formatted([7, -12, 0]) == "there are 3 numbers: 7, -12, 0"
  {
    var a := [7, -12, 0];
    SmallTexts();
    JoinedThree(Texts(a));
    assert DecimalText(3) == "3";
  }

  lemma ExampleOfNone()
    ensures Formatted([]) == "there are 0 numbers: "
  {
    assert DecimalText(0) == "0";
  }

  // --- How long the text gets --------------------------------------------------------------------

  /** No int needs more than 11 characters, nor a non-negative one more than 10. */
  lemma NumberFits(x: int)
    requires IsInt(x)
    ensures |IntText(x)| <= 11
    ensures x >= 0 ==> |IntText(x)| <= 10
    ensures x == INT_MIN ==> |IntText(x)| == 11
    ensures x == INT_MAX ==> |IntText(x)| == 10
  {
    TextLength(Magnitude(x), 10);
    TextLength(Magnitude(x), 9);
    PowersOfTen();
  }

  lemma PowersOfTen()
    ensures Pow10(10) == 10_000_000_000 && Pow10(9) == 1_000_000_000
  {
    assert Pow10(3) == 1000;
    assert Pow10(6) == 1_000_000;
    assert Pow10(9) == 1_000_000_000;
  }

  /** The room i numbers of w characters take, each with a separator. */
  function Columns(w: nat, i: nat): nat {
    if i == 0 then 0 else Columns(w, i - 1) + w + 2
  }

  lemma {:induction false} Columns10And11(i: nat)
    ensures Columns(10, i) == 12 * i && Columns(11, i) == 13 * i
  {
    if i > 0 {
      Columns10And11(i - 1);
    }
  }

  /** The length after i rounds when every number takes at most w characters. */
  lemma {:induction false} JoinedAtMost(texts: seq<string>, i: nat, w: nat)
    requires i <= |texts| && forall k :: 0 <= k < |texts| ==> |texts[k]| <= w
    ensures |Joined(texts, i)| + (if i > 0 && i == |texts| then 2 else 0) <= Columns(w, i)
  {
    if i > 0 {
      JoinedAtMost(texts, i - 1, w);
    }
  }

  /** The same when every number takes exactly w characters. */
  lemma {:induction false} JoinedExactly(texts: seq<string>, i: nat, w: nat)
    requires i <= |texts| && forall k :: 0 <= k < |texts| ==> |texts[k]| == w
    ensures |Joined(texts, i)| + (if i > 0 && i == |texts| then 2 else 0) == Columns(w, i)
  {
    if i > 0 {
      JoinedExactly(texts, i - 1, w);
    }
  }

  lemma {:induction false} ShortCount(n: nat)
    requires n > 0
    ensures |DecimalText(n)| <= n / 10 + 1
  {
    if n >= 10 {
      ShortCount(n / 10);
    }
  }

  lemma FormattedLength(a: seq<int>)
    ensures |Formatted(a)| == 20 + |DecimalText(|a|)| + |Joined(Texts(a), |a|)|
  {
  }

  lemma FitsFrom9(a: seq<int>)
    requires |a| >= 9 && Ints(a)
    ensures Fits(a)
  {
    forall k | 0 <= k < |a| ensures |Texts(a)[k]| <= 11 {
      NumberFits(a[k]);
    }
    FormattedLength(a);
    JoinedAtMost(Texts(a), |a|, 11);
    Columns10And11(|a|);
    ShortCount(|a|);
  }

  lemma FitsFrom5(a: seq<int>)
    requires |a| >= 5 && Ints(a) && forall k :: 0 <= k < |a| ==> a[k] >= 0
    ensures Fits(a)
  {
    forall k | 0 <= k < |a| ensures |Texts(a)[k]| <= 10 {
      NumberFits(a[k]);
    }
    FormattedLength(a);
    JoinedAtMost(Texts(a), |a|, 10);
    Columns10And11(|a|);
    ShortCount(|a|);
  }

  lemma TooLong(a: seq<int>, w: nat)
    requires (w == 11 && |a| < 9) || (w == 10 && |a| < 5)
    requires forall k :: 0 <= k < |a| ==> |Texts(a)[k]| == w
    ensures !Fits(a)
  {
    FormattedLength(a);
    JoinedExactly(Texts(a), |a|, w);
    Columns10And11(|a|);
  }

  /** The buffer is large enough for every array of a size exactly from size 9 on. */
  lemma FitsIff(size: nat)
    ensures (forall a: seq<int> :: |a| == size && Ints(a) ==> Fits(a)) <==> size >= 9
  {
    if size >= 9 {
      forall a: seq<int> | |a| == size && Ints(a) ensures Fits(a) {
        FitsFrom9(a);
      }
    } else {
      var a := seq(size, i => INT_MIN);
      NumberFits(INT_MIN);
      TooLong(a, 11);
    }
  }

  ghost predicate NonNegative(a: seq<int>) {
    forall k :: 0 <= k < |a| ==> a[k] >= 0
  }

  /** For non-negative numbers, as the scanner finds them, from size 5 on. */
  lemma FitsIffNonNegative(size: nat)
    ensures (forall a: seq<int> :: |a| == size && Ints(a) && NonNegative(a) ==> Fits(a)) <==> size >= 5
  {
    if size >= 5 {
      forall a: seq<int> | |a| == size && Ints(a) && NonNegative(a) ensures Fits(a) {
        FitsFrom5(a);
      }
    } else {
      var a := seq(size, i => INT_MAX);
      NumberFits(INT_MAX);
      TooLong(a, 10);
    }
  }

  // --- Reading it back ------------------------------------------------------------------------------

  /** The text from the i-th number on. */
  function Remaining(texts: seq<string>, i: nat): string
    requires i <= |texts|
    decreases |texts| - i
  {
    if i == |texts| then "" else Item(texts, i) + Remaining(texts, i + 1)
  }

  lemma {:induction false} JoinedAndRemaining(texts: seq<string>, i: nat)
    requires i <= |texts|
    ensures Joined(texts, i) + Remaining(texts, i) == Joined(texts, |texts|)
    decreases |texts| - i
  {
    if i < |texts| {
      JoinedAndRemaining(texts, i + 1);
      Associative(Joined(texts, i), Item(texts, i), Remaining(texts, i + 1));
    }
  }

  /** The text is the digits d, perhaps after a minus sign. */
  ghost predicate Shows(text: string, d: string) {
    d != [] && AllDigits(d) && (text == d || text == "-" + d)
  }

  lemma RunsOfItem(texts: seq<string>, i: nat, d: string, rest: string)
    requires i < |texts| && Shows(texts[i], d) && (i == |texts| - 1 ==> rest == "")
    ensures Runs(Item(texts, i) + rest) == [d] + Runs(rest)
  {
    var sign := if texts[i] == d then "" else "-";
    var sep := if i < |texts| - 1 then ", " else "";
    assert Item(texts, i) + rest == sign + (d + (sep + rest));
    RunsSkip(sign, d + (sep + rest));
    RunsTake(d, sep + rest);
    RunsSkip(sep, rest);
  }

  lemma {:induction false} RunsOfRemaining(texts: seq<string>, ds: seq<string>, i: nat)
    requires |texts| == |ds| && i <= |texts|
    requires forall k :: 0 <= k < |ds| ==> Shows(texts[k], ds[k])
    ensures Runs(Remaining(texts, i)) == ds[i..]
    decreases |texts| - i
  {
    if i < |texts| {
      RunsOfRemaining(texts, ds, i + 1);
      RunsOfItem(texts, i, ds[i], Remaining(texts, i + 1));
    }
  }

  lemma RunsOfHeader(n: nat, rest: string)
    ensures Runs(Header(n) + rest) == [DecimalText(n)] + Runs(rest)
  {
    assert Header(n) + rest == "there are " + (DecimalText(n) + (" numbers: " + rest));
    RunsSkip("there are ", DecimalText(n) + (" numbers: " + rest));
    RunsTake(DecimalText(n), " numbers: " + rest);
    RunsSkip(" numbers: ", rest);
  }

  /** The digits of the entries, signs left out. */
  function Digits(a: seq<int>): (r: seq<string>)
    ensures |r| == |a| && forall i :: 0 <= i < |a| ==> r[i] == DecimalText(Magnitude(a[i]))
  {
    seq(|a|, i requires 0 <= i < |a| => DecimalText(Magnitude(a[i])))
  }

  lemma ShowsNumber(x: int)
    ensures Shows(IntText(x), DecimalText(Magnitude(x)))
  {
    assert "" + DecimalText(Magnitude(x)) == DecimalText(Magnitude(x));
  }

  lemma RunsOfTexts(texts: seq<string>, ds: seq<string>)
    requires |texts| == |ds| && forall k :: 0 <= k < |ds| ==> Shows(texts[k], ds[k])
    ensures Runs(Joined(texts, |texts|)) == ds
  {
    JoinedAndRemaining(texts, 0);
    assert "" + Remaining(texts, 0) == Remaining(texts, 0);
    RunsOfRemaining(texts, ds, 0);
    assert ds[0..] == ds;
  }

  lemma RunsOfBody(a: seq<int>)
    ensures Runs(Joined(Texts(a), |a|)) == Digits(a)
  {
    forall k | 0 <= k < |a| ensures Shows(Texts(a)[k], Digits(a)[k]) {
      ShowsNumber(a[k]);
    }
    RunsOfTexts(Texts(a), Digits(a));
  }

  /** The digit runs of the printed text: the count, then the magnitudes. */
  lemma RunsOfFormatted(a: seq<int>)
    ensures Runs(Formatted(a)) == [DecimalText(|a|)] + Digits(a)
  {
    RunsOfHeader(|a|, Joined(Texts(a), |a|));
    RunsOfBody(a);
  }

  lemma AtoiOfText(n: nat)
    requires n <= INT_MAX + 1
    ensures Atoi(DecimalText(n)) == if n <= INT_MAX then n else INT_MIN
  {
    ValueOfText(n);
  }

  /** What the scanner makes of a printed magnitude. */
  function Reread(n: nat): int {
    if n <= INT_MAX then n else INT_MIN
  }

  lemma NumberAt(s: string, ds: seq<string>, i: nat, n: nat)
    requires Runs(s) == ds && i < |ds| && ds[i] == DecimalText(n)
    ensures |Numbers(s)| == |ds| && (Numbers(s)[i] == n <==> n <= INT_MAX)
    ensures n <= INT_MAX + 1 ==> Numbers(s)[i] == Reread(n)
  {
    ValueOfText(n);
    AtoiExact(DecimalText(n));
    if n <= INT_MAX + 1 {
      AtoiOfText(n);
    }
  }

  /** Scanning a printed array gives the count, if it fits in an int, and then the magnitudes of
      the entries, where that of the least int wraps around to the least int. */
  lemma NumbersOfFormatted(a: seq<int>)
    requires Ints(a)
    ensures |Numbers(Formatted(a))| == |a| + 1 && (Numbers(Formatted(a))[0] == |a| <==> |a| <= INT_MAX)
    ensures forall i :: 0 <= i < |a| ==> Numbers(Formatted(a))[i + 1] == Reread(Magnitude(a[i]))
  {
    RunsOfFormatted(a);
    var ds := [DecimalText(|a|)] + Digits(a);
    NumberAt(Formatted(a), ds, 0, |a|);
    forall i | 0 <= i < |a| ensures Numbers(Formatted(a))[i + 1] == Reread(Magnitude(a[i])) {
      NumberAt(Formatted(a), ds, i + 1, Magnitude(a[i]));
    }
  }

  predicate Survives(x: int) {
    x >= 0 || x == INT_MIN
  }

  /** The round trip gives the array back if and only if its size fits in an int and all
      entries survive. */
  lemma RoundTripIff(a: seq<int>)
    requires Ints(a)
    ensures Numbers(Formatted(a)) == [|a|] + a
       <==> |a| <= INT_MAX && forall i :: 0 <= i < |a| ==> Survives(a[i])
  {
    NumbersOfFormatted(a);
    SameAfter(Numbers(Formatted(a)), a);
  }

  lemma SameAfter(back: seq<int>, a: seq<int>)
    requires |back| == |a| + 1 && Ints(a)
    requires forall i :: 0 <= i < |a| ==> back[i + 1] == Reread(Magnitude(a[i]))
    ensures back == [|a|] + a <==> back[0] == |a| && forall i :: 0 <= i < |a| ==> Survives(a[i])
  {
    if back == [|a|] + a {
      forall i | 0 <= i < |a| ensures Survives(a[i]) {
        assert back[i + 1] == a[i];
      }
    }
  }
}
