/** The protocol behind both review programs, with queues, semaphores and locks
    taken away: every programmer owns one token, and the token says what is
    happening to that programmer's program. */
module TokenPassing {
  import opened Sums

  datatype Work = Writing | Review(judge: nat) | ReReview(judge: nat)

  /** The random draws of one decision: who is to review, and the verdict. */
  datatype Choice = Choice(reviewer: nat, correct: bool)

  datatype Token = Token(owner: int, work: Work)

  /** One decision: process `judge` deals with the program of `owner`. */
  datatype Decision = Decision(owner: nat, judge: nat, choice: Choice)

  /** Nobody reviews or re-reviews his own program. */
  ghost predicate Valid(a: seq<Work>) {
    forall p {:trigger a[p]} :: 0 <= p < |a| && !a[p].Writing? ==> a[p].judge < |a| && a[p].judge != p
  }

  function Start(n: nat): seq<Work> {
    seq(n, p => Writing)
  }

  function Advance(w: Work, c: Choice): Work {
    match w
    case Writing => Review(c.reviewer)
    case Review(r) => if c.correct then Writing else ReReview(r)
    case ReReview(r) => if c.correct then Writing else ReReview(r)
  }

  /** The process that may decide about the program of p. */
  function Holder(a: seq<Work>, p: nat): nat
    requires p < |a|
  {
    if a[p].Writing? then p else a[p].judge
  }

  ghost predicate Legal(a: seq<Work>, d: Decision) {
    && d.owner < |a|
    && d.judge == Holder(a, d.owner)
    && (a[d.owner].Writing? ==> d.choice.reviewer < |a| && d.choice.reviewer != d.owner)
  }

  function Apply(a: seq<Work>, d: Decision): (b: seq<Work>)
    requires d.owner < |a|
  {
    a[d.owner := Advance(a[d.owner], d.choice)]
  }

  /** The abstract state after a sequence of decisions, if each one was legal in its turn. */
  ghost function Play(a: seq<Work>, ds: seq<Decision>): Option<seq<Work>>
    decreases |ds|
  {
    if ds == [] then Some(a)
    else if Legal(a, ds[0]) then Play(Apply(a, ds[0]), ds[1..])
    else None
  }

  lemma {:induction false} PlayAppend(a: seq<Work>, ds: seq<Decision>, es: seq<Decision>)
    ensures Play(a, ds + es) == match Play(a, ds) case None => None case Some(b) => Play(b, es)
    decreases |ds|
  {
    if ds == [] {
      assert ds + es == es;
    } else {
      assert (ds + es)[1..] == ds[1..] + es;
      if Legal(a, ds[0]) {
        PlayAppend(Apply(a, ds[0]), ds[1..], es);
      }
    }
  }

  lemma {:induction false} PlayKeepsValid(a: seq<Work>, ds: seq<Decision>)
    requires Valid(a) && Play(a, ds).Some?
    ensures |Play(a, ds).value| == |a| && Valid(Play(a, ds).value)
    decreases |ds|
  {
    if ds != [] {
      PlayKeepsValid(Apply(a, ds[0]), ds[1..]);
    }
  }

  predicate Accepts(d: Decision, p: nat) {
    d.owner == p && d.choice.correct
  }

  /** Once r has rejected the program of p, the program stays with r as a re-review
      until r accepts it, and nobody but r decides about it meanwhile. */
  lemma {:induction false} RejectionSticks(a: seq<Work>, ds: seq<Decision>, p: nat, r: nat)
    requires p < |a| && a[p] == ReReview(r)
    requires Play(a, ds).Some?
    requires forall k :: 0 <= k < |ds| ==> !Accepts(ds[k], p)
    ensures |Play(a, ds).value| == |a| && Play(a, ds).value[p] == ReReview(r)
    ensures forall k :: 0 <= k < |ds| && ds[k].owner == p ==> ds[k].judge == r
    decreases |ds|
  {
    if ds != [] {
      var b := Apply(a, ds[0]);
      assert !Accepts(ds[0], p);
      assert forall k :: 0 <= k < |ds[1..]| ==> ds[1..][k] == ds[k + 1];
      RejectionSticks(b, ds[1..], p, r);
      forall k | 0 <= k < |ds| && ds[k].owner == p ensures ds[k].judge == r {
        if k > 0 {
          assert ds[k] == ds[1..][k - 1];
        }
      }
    }
  }

  /** What becomes of p's program when its holder decides, in the protocol's terms: a written
      program goes to the drawn reviewer, who is not p; a favourable verdict of a first or a
      repeated review lets p write again, and an unfavourable one leaves it with the same judge
      as a re-review. Nobody else's program is touched. */
  lemma DecisionSettles(a: seq<Work>, p: nat, c: Choice)
    requires Valid(a) && p < |a|
    ensures var d := Decision(p, Holder(a, p), c);
      && (Legal(a, d) <==> (a[p].Writing? ==> c.reviewer < |a| && c.reviewer != p))
      && var b := Apply(a, d);
         && |b| == |a| && (forall q :: 0 <= q < |a| && q != p ==> b[q] == a[q])
         && (a[p] == Writing ==> b[p] == Review(c.reviewer))
         && (forall r :: (a[p] == Review(r) || a[p] == ReReview(r)) && c.correct ==> b[p] == Writing)
         && (forall r :: (a[p] == Review(r) || a[p] == ReReview(r)) && !c.correct ==> b[p] == ReReview(r))
  {
  }

  // --- The tokens as a multiset -------------------------------------------------

  ghost function TokenSeq(a: seq<Work>): (t: seq<Token>)
    ensures |t| == |a|
    ensures forall p :: 0 <= p < |a| ==> t[p] == Token(p, a[p])
  {
    seq(|a|, p requires 0 <= p < |a| => Token(p, a[p]))
  }

  ghost function Tokens(a: seq<Work>): multiset<Token> {
    multiset(TokenSeq(a))
  }

  /** How many copies of token t abstract state a prescribes. */
  ghost function Share(a: seq<Work>, t: Token): nat {
    if 0 <= t.owner < |a| && a[t.owner] == t.work then 1 else 0
  }

  lemma TokensMember(a: seq<Work>, t: Token)
    ensures t in Tokens(a) <==> 0 <= t.owner < |a| && a[t.owner] == t.work
  {
    if 0 <= t.owner < |a| && a[t.owner] == t.work {
      assert TokenSeq(a)[t.owner] == t;
    }
  }

  lemma TokensUpdate(a: seq<Work>, p: nat, w: Work)
    requires p < |a|
    ensures Tokens(a[p := w]) == Tokens(a) - multiset{Token(p, a[p])} + multiset{Token(p, w)}
  {
    assert TokenSeq(a[p := w]) == TokenSeq(a)[p := Token(p, w)];
  }

  /** Every programmer owns exactly one token. */
  lemma TokensUnique(a: seq<Work>, t: Token)
    ensures Tokens(a)[t] <= 1
    ensures |Tokens(a)| == |a|
  {
    var s := TokenSeq(a);
    if t in Tokens(a) {
      TokensMember(a, t);
      var p := t.owner;
      assert s == s[..p] + [t] + s[p + 1..];
      assert t !in s[..p] && t !in s[p + 1..];
      assert multiset(s) == multiset(s[..p]) + multiset{t} + multiset(s[p + 1..]);
    }
  }
}
