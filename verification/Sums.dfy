/** Sums of counters and of multisets along a sequence, with the one law every
    accounting proof below needs: what changing a single entry does to the sum. */
module Sums {

  datatype Option<+T> = None | Some(value: T)

  function Total(s: seq<nat>): nat {
    if s == [] then 0 else s[0] + Total(s[1..])
  }

  lemma {:induction false} TotalUpdate(s: seq<nat>, i: nat, x: nat)
    requires i < |s|
    ensures Total(s[i := x]) + s[i] == Total(s) + x
    ensures s[i] <= Total(s)
  {
    if i == 0 {
      assert s[i := x][1..] == s[1..];
    } else {
      assert s[i := x][1..] == s[1..][i - 1 := x];
      TotalUpdate(s[1..], i - 1, x);
    }
  }

  lemma {:induction false} TotalZero(s: seq<nat>)
    ensures Total(s) == 0 <==> forall i :: 0 <= i < |s| ==> s[i] == 0
  {
    if s != [] {
      TotalZero(s[1..]);
      assert forall i :: 0 < i < |s| ==> s[i] == s[1..][i - 1];
    }
  }

  function Union<T>(s: seq<multiset<T>>): multiset<T> {
    if s == [] then multiset{} else s[0] + Union(s[1..])
  }

  lemma {:induction false} UnionUpdate<T>(s: seq<multiset<T>>, i: nat, m: multiset<T>)
    requires i < |s|
    ensures Union(s[i := m]) == Union(s) - s[i] + m
    ensures s[i] <= Union(s)
  {
    if i == 0 {
      assert s[i := m][1..] == s[1..];
    } else {
      assert s[i := m][1..] == s[1..][i - 1 := m];
      UnionUpdate(s[1..], i - 1, m);
    }
  }

  lemma {:induction false} UnionEmpty<T>(s: seq<multiset<T>>)
    requires forall i :: 0 <= i < |s| ==> s[i] == multiset{}
    ensures Union(s) == multiset{}
  {
    if s != [] {
      UnionEmpty(s[1..]);
    }
  }

  /** Whatever occurs in the sum occurs in one of its entries. */
  lemma {:induction false} UnionMember<T>(s: seq<multiset<T>>, x: T) returns (i: nat)
    requires x in Union(s)
    ensures i < |s| && x in s[i]
  {
    if x in s[0] {
      i := 0;
    } else {
      var j := UnionMember(s[1..], x);
      i := j + 1;
    }
  }
}
