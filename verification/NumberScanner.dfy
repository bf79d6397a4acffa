/** The scanner: one pass over a C string with two buffers that grow by doubling. */
module NumberScanner {
  import opened NumberText
  import opened Sequences

  /** The C string at the beginning of a buffer: everything before the first NUL. */
  function CString(s: string): string {
    if s == [] || s[0] == '\0' then [] else [s[0]] + CString(s[1..])
  }

  lemma {:induction false} CStringAt(s: string, k: nat)
    requires k < |s| && s[k] == '\0' && forall i :: 0 <= i < k ==> s[i] != '\0'
    ensures CString(s) == s[..k]
  {
    if k > 0 {
      CStringAt(s[1..], k - 1);
      assert s[..k] == [s[0]] + s[1..][..k - 1];
    }
  }

  lemma {:induction false} CStringEnds(s: string)
    requires '\0' in s
    ensures |CString(s)| < |s| && CString(s) == s[..|CString(s)|] && s[|CString(s)|] == '\0'
    ensures '\0' !in CString(s)
  {
    if s[0] != '\0' {
      CStringEnds(s[1..]);
    }
  }

  /** A larger block that begins like the old one. */
  method Realloc<T(0)>(a: array<T>, size: nat) returns (b: array<T>)
    requires a.Length <= size
    ensures fresh(b) && b.Length == size && b[..a.Length] == a[..]
  {
    b := new T[size];
    for i := 0 to a.Length
      invariant b[..i] == a[..i]
    {
      b[i] := a[i];
    }
  }

  // --- One character at a time --------------------------------------------------------------

  lemma AfterRun(run: string, rest: string)
    requires AllDigits(run) && rest != [] && !IsDigit(rest[0])
    ensures Numbers(run + rest) == (if run == [] then [] else [Atoi(run)]) + Numbers(rest[1..])
  {
    assert Runs(rest) == Runs(rest[1..]);
    if run == [] {
      assert run + rest == rest;
    } else {
      RunsTake(run, rest);
    }
  }

  lemma AtTheEnd(run: string)
    requires AllDigits(run)
    ensures Numbers(run) == if run == [] then [] else [Atoi(run)]
  {
    if run != [] {
      RunsTake(run, []);
      assert run + [] == run;
    }
  }

  /** Adds a digit to the current run, keeping it NUL-terminated. */
  method AppendDigit(curstr: array<char>, len: nat, c: char) returns (b: array<char>)
    requires len < curstr.Length
    modifies curstr
    ensures b == curstr || fresh(b)
    ensures len + 1 < b.Length && b.Length <= 2 * curstr.Length
    ensures b[..len + 1] == old(curstr[..len]) + [c] && b[len + 1] == '\0'
  {
    b := curstr;
    if len + 1 >= b.Length {
      b := Realloc(b, 2 * b.Length);
    }
    assert b[..len] == old(curstr[..len]);
    b[len] := c;
    b[len + 1] := '\0';
  }

  /** Ten cells at first, and fewer than twice the numbers in them after any growth. */
  predicate Economical(length: nat, count: nat) {
    count <= length && 10 <= length && (length > 10 ==> length < 2 * count)
  }

  /** Converts the current run and stores it as the next number. */
  method AppendNumber(ans: array<int>, count: nat, curstr: array<char>, len: nat) returns (b: array<int>)
    requires Economical(ans.Length, count)
    requires len < curstr.Length && AllDigits(curstr[..len]) && curstr[len] == '\0'
    modifies ans
    ensures b == ans || fresh(b)
    ensures Economical(b.Length, count + 1)
    ensures b[..count + 1] == old(ans[..count]) + [Atoi(curstr[..len])]
  {
    CStringAt(curstr[..], len);
    assert curstr[..][..len] == curstr[..len];
    var a := Atoi(CString(curstr[..]));
    b := ans;
    if count >= b.Length {
      b := Realloc(b, 2 * b.Length);
    }
    assert b[..count] == old(ans[..count]);
    b[count] := a;
  }

  /** The state of the scan before position i: the run being read and the numbers found. */
  ghost function Scanned(all: string, i: nat): (r: (string, seq<int>))
    requires i <= |all|
    ensures AllDigits(r.0)
  {
    if i == 0 then ([], [])
    else
      var (run, found) := Scanned(all, i - 1);
      if IsDigit(all[i - 1]) then (run + [all[i - 1]], found)
      else ([], if run == [] then found else found + [Atoi(run)])
  }

  lemma TextMoves(all: string, i: nat, run: string)
    requires i < |all|
    ensures run + all[i..] == (run + [all[i]]) + all[i + 1..]
    ensures all[i..] != [] && all[i..][0] == all[i] && all[i..][1..] == all[i + 1..]
    ensures [] + all[i + 1..] == all[i + 1..]
  {
  }

  /** What has been found, and what the open run and the rest of the text will give, are the
      numbers of the whole text. */
  ghost predicate Accounted(all: string, i: nat)
    requires i <= |all|
  {
    Numbers(all) == Scanned(all, i).1 + Numbers(Scanned(all, i).0 + all[i..])
  }

  lemma AccountedAtFirst(all: string)
    ensures Accounted(all, 0)
  {
    assert [] + all[0..] == all;
  }

  lemma AccountedAfterDigit(all: string, i: nat)
    requires i < |all| && IsDigit(all[i]) && Accounted(all, i)
    ensures Accounted(all, i + 1)
  {
    TextMoves(all, i, Scanned(all, i).0);
  }

  lemma AccountedAfterOther(all: string, i: nat)
    requires i < |all| && !IsDigit(all[i]) && Accounted(all, i)
    ensures Accounted(all, i + 1)
  {
    var (run, found) := Scanned(all, i);
    TextMoves(all, i, run);
    AfterRun(run, all[i..]);
    Associative(found, [Atoi(run)], Numbers(all[i + 1..]));
  }

  lemma {:induction false} ScannedSoFar(all: string, i: nat)
    requires i <= |all|
    ensures Accounted(all, i)
  {
    if i == 0 {
      AccountedAtFirst(all);
    } else {
      ScannedSoFar(all, i - 1);
      if IsDigit(all[i - 1]) {
        AccountedAfterDigit(all, i - 1);
      } else {
        AccountedAfterOther(all, i - 1);
      }
    }
  }

  lemma ScannedNext(all: string, i: nat)
    requires i < |all|
    ensures Scanned(all, i + 1) ==
      var (run, found) := Scanned(all, i);
      if IsDigit(all[i]) then (run + [all[i]], found)
      else ([], if run == [] then found else found + [Atoi(run)])
  {
  }

  lemma ScanEnd(all: string)
    ensures var (run, found) := Scanned(all, |all|);
      Numbers(all) == if run == [] then found else found + [Atoi(run)]
  {
    ScannedSoFar(all, |all|);
    var (run, found) := Scanned(all, |all|);
    assert run + all[|all|..] == run;
    AtTheEnd(run);
  }

  /** The pass over the text: finishes with the numbers found and a run possibly open. */
  method ScanText(text: array<char>) returns (ans: array<int>, count: nat, curstr: array<char>, len: nat)
    requires '\0' in text[..]
    ensures fresh(ans) && fresh(curstr)
    ensures Economical(ans.Length, count)
    ensures len < curstr.Length && (len > 0 ==> curstr[len] == '\0')
    ensures (curstr[..len], ans[..count]) == Scanned(CString(text[..]), |CString(text[..])|)
  {
    ans := new int[10];
    curstr := new char[10];
    curstr[0] := '\0';
    len := 0;
    count := 0;
    ghost var all := CString(text[..]);
    CStringEnds(text[..]);
    var i := 0;
    while text[i] != '\0'
      invariant 0 <= i <= |all| < text.Length
      invariant fresh(ans) && fresh(curstr)
      invariant len < curstr.Length && (len > 0 ==> curstr[len] == '\0')
      invariant Economical(ans.Length, count)
      invariant (curstr[..len], ans[..count]) == Scanned(all, i)
      decreases |all| - i
    {
      assert text[i] == all[i];
      ScannedNext(all, i);
      if '0' <= text[i] <= '9' {
        curstr := AppendDigit(curstr, len, text[i]);
        len := len + 1;
      } else if len > 0 {
        ans := AppendNumber(ans, count, curstr, len);
        count := count + 1;
        len := 0;
      }
      i := i + 1;
    }
  }

  /** The numbers in the C string, in order; the capacity is below twice their count once it
      has grown at all. */
  method FindAllNumbers(text: array<char>) returns (ans: array<int>, count: nat)
    requires '\0' in text[..]
    ensures Economical(ans.Length, count)
    ensures ans[..count] == Numbers(CString(text[..]))
  {
    var curstr, len;
    ans, count, curstr, len := ScanText(text);
    ScanEnd(CString(text[..]));
    if len > 0 {
      ans := AppendNumber(ans, count, curstr, len);
      count := count + 1;
    }
  }

  /** The scanner returns the numbers the text denotes if and only if all of them fit in an
      int. */
  lemma ScannerExact(s: string)
    ensures (forall k :: 0 <= k < |Runs(s)| ==> Numbers(s)[k] == Value(Runs(s)[k]))
       <==> (forall k :: 0 <= k < |Runs(s)| ==> Value(Runs(s)[k]) <= INT_MAX)
  {
    forall k | 0 <= k < |Runs(s)|
      ensures Numbers(s)[k] == Value(Runs(s)[k]) <==> Value(Runs(s)[k]) <= INT_MAX
    {
      AtoiExact(Runs(s)[k]);
    }
  }
}
