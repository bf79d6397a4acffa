/** The review program over POSIX message queues: n processes, one bounded queue and one
    counting semaphore each, no lock. A state is everything the processes share together
    with the place each process has reached in its loop, and a step is one system call
    (or one decision) of one process. */
module MessageQueueReview {
  import opened Sums
  import opened TokenPassing

  const WRITE_TASK := -1

  /** Where a process stands in its loop. */
  datatype Pc =
    | Waiting                        // before sem_wait on its own semaphore
    | Receiving                      // before mq_receive
    | Deciding(task: int)            // holds a task
    | Sending(dest: nat, msg: int)   // before mq_send
    | Posting(target: nat)           // before sem_post

  datatype State = State(queues: seq<seq<int>>, sems: seq<nat>, pcs: seq<Pc>)

  /** One scheduled step: which process moves, and the draws it makes if it decides. */
  datatype Event = Event(me: nat, choice: Choice)

  ghost predicate WellFormed(n: nat, s: State) {
    && |s.queues| == |s.sems| == |s.pcs| == n
    && (forall i :: 0 <= i < n && s.pcs[i].Sending? ==> s.pcs[i].dest < n)
    && (forall i :: 0 <= i < n && s.pcs[i].Posting? ==> s.pcs[i].target < n)
  }

  function Start(n: nat): State {
    State(seq(n, i => [WRITE_TASK]), seq(n, i => 1), seq(n, i => Waiting))
  }

  /** What the holder of a task sends next and to whom; None for a number that encodes no
      task, where the loop just starts over. */
  function Outcome(n: nat, me: nat, task: int, c: Choice): Option<(nat, int)>
    requires me < n
    requires task == WRITE_TASK ==> c.reviewer < n
    ensures Outcome(n, me, task, c).Some? ==> Outcome(n, me, task, c).value.0 < n
  {
    if task == WRITE_TASK then Some((c.reviewer, me))
    else if 0 <= task < n then
      if c.correct then Some((task, WRITE_TASK)) else Some((me, task + n))
    else if n <= task < 2 * n then
      if c.correct then Some((task - n, WRITE_TASK)) else Some((me, task))
    else None
  }

  /** The drawing loop ends with a reviewer other than the author. */
  predicate DrawEnds(n: nat, me: nat, task: int, c: Choice) {
    task == WRITE_TASK ==> c.reviewer < n && c.reviewer != me
  }

  /** One step of process e.me; None when its call blocks. */
  function Step(n: nat, capacity: nat, s: State, e: Event): Option<State>
    requires WellFormed(n, s)
    ensures Step(n, capacity, s, e).Some? ==> WellFormed(n, Step(n, capacity, s, e).value)
  {
    var me := e.me;
    if me >= n then None else
    match s.pcs[me]
    case Waiting =>
      if s.sems[me] == 0 then None
      else Some(s.(sems := s.sems[me := s.sems[me] - 1], pcs := s.pcs[me := Receiving]))
    case Receiving =>
      if s.queues[me] == [] then None
      else Some(s.(queues := s.queues[me := s.queues[me][1..]],
                   pcs := s.pcs[me := Deciding(s.queues[me][0])]))
    case Deciding(task) =>
      if !DrawEnds(n, me, task, e.choice) then None
      else (
        match Outcome(n, me, task, e.choice)
        case None => Some(s.(pcs := s.pcs[me := Waiting]))
        case Some((d, t)) => Some(s.(pcs := s.pcs[me := Sending(d, t)])))
    case Sending(d, t) =>
      if |s.queues[d]| >= capacity then None
      else Some(s.(queues := s.queues[d := s.queues[d] + [t]], pcs := s.pcs[me := Posting(d)]))
    case Posting(d) =>
      Some(s.(sems := s.sems[d := s.sems[d] + 1], pcs := s.pcs[me := Waiting]))
  }

  function Run(n: nat, capacity: nat, s: State, schedule: seq<Event>): Option<State>
    requires WellFormed(n, s)
    ensures Run(n, capacity, s, schedule).Some? ==> WellFormed(n, Run(n, capacity, s, schedule).value)
    decreases |schedule|
  {
    if schedule == [] then Some(s)
    else match Step(n, capacity, s, schedule[0])
         case None => None
         case Some(t) => Run(n, capacity, t, schedule[1..])
  }

  // --- Where the tokens are -------------------------------------------------------

  /** The token a task stands for when it is at process `at`. */
  function TokenOf(n: nat, at: nat, task: int): Token {
    if task == WRITE_TASK then Token(at, Writing)
    else if task < n then Token(task, Review(at))
    else Token(task - n, ReReview(at))
  }

  ghost function QueueTokens(n: nat, at: nat, q: seq<int>): multiset<Token>
    decreases |q|
  {
    if q == [] then multiset{} else multiset{TokenOf(n, at, q[0])} + QueueTokens(n, at, q[1..])
  }

  ghost function PcTokens(n: nat, at: nat, pc: Pc): multiset<Token> {
    match pc
    case Deciding(t) => multiset{TokenOf(n, at, t)}
    case Sending(d, t) => multiset{TokenOf(n, d, t)}
    case _ => multiset{}
  }

  ghost function QueueSide(n: nat, queues: seq<seq<int>>): (u: seq<multiset<Token>>)
    requires |queues| == n
    ensures |u| == n && forall i :: 0 <= i < n ==> u[i] == QueueTokens(n, i, queues[i])
  {
    seq(n, i requires 0 <= i < n => QueueTokens(n, i, queues[i]))
  }

  ghost function PcSide(n: nat, pcs: seq<Pc>): (u: seq<multiset<Token>>)
    requires |pcs| == n
    ensures |u| == n && forall i :: 0 <= i < n ==> u[i] == PcTokens(n, i, pcs[i])
  {
    seq(n, i requires 0 <= i < n => PcTokens(n, i, pcs[i]))
  }

  ghost function AllTokens(n: nat, s: State): multiset<Token>
    requires WellFormed(n, s)
  {
    Union(QueueSide(n, s.queues)) + Union(PcSide(n, s.pcs))
  }

  /** How often token t occurs in the whole system. */
  ghost function Amount(n: nat, s: State, t: Token): nat
    requires WellFormed(n, s)
  {
    AllTokens(n, s)[t]
  }

  lemma {:induction false} QueueTokensAppend(n: nat, at: nat, q: seq<int>, t: int)
    ensures QueueTokens(n, at, q + [t]) == QueueTokens(n, at, q) + multiset{TokenOf(n, at, t)}
    decreases |q|
  {
    if q == [] {
      assert q + [t] == [t];
    } else {
      assert (q + [t])[1..] == q[1..] + [t];
      QueueTokensAppend(n, at, q[1..], t);
    }
  }

  lemma {:induction false} QueueTokensMember(n: nat, at: nat, q: seq<int>, k: nat)
    requires k < |q|
    ensures TokenOf(n, at, q[k]) in QueueTokens(n, at, q)
    decreases |q|
  {
    if k > 0 {
      QueueTokensMember(n, at, q[1..], k - 1);
    }
  }

  lemma {:induction false} QueueTokensSize(n: nat, at: nat, q: seq<int>)
    ensures |QueueTokens(n, at, q)| == |q|
    decreases |q|
  {
    if q != [] {
      QueueTokensSize(n, at, q[1..]);
    }
  }

  lemma PcMove(n: nat, pcs: seq<Pc>, me: nat, pc: Pc)
    requires |pcs| == n && me < n
    ensures Union(PcSide(n, pcs[me := pc])) == Union(PcSide(n, pcs)) - PcTokens(n, me, pcs[me]) + PcTokens(n, me, pc)
    ensures PcTokens(n, me, pcs[me]) <= Union(PcSide(n, pcs))
  {
    assert PcSide(n, pcs[me := pc]) == PcSide(n, pcs)[me := PcTokens(n, me, pc)];
    UnionUpdate(PcSide(n, pcs), me, PcTokens(n, me, pc));
  }

  lemma QueueMove(n: nat, queues: seq<seq<int>>, d: nat, q: seq<int>)
    requires |queues| == n && d < n
    ensures Union(QueueSide(n, queues[d := q]))
         == Union(QueueSide(n, queues)) - QueueTokens(n, d, queues[d]) + QueueTokens(n, d, q)
    ensures QueueTokens(n, d, queues[d]) <= Union(QueueSide(n, queues))
  {
    assert QueueSide(n, queues[d := q]) == QueueSide(n, queues)[d := QueueTokens(n, d, q)];
    UnionUpdate(QueueSide(n, queues), d, QueueTokens(n, d, q));
  }

  /** A token some process holds is among all tokens. */
  lemma HeldTokenPresent(n: nat, s: State, me: nat, t: Token)
    requires WellFormed(n, s) && me < n && t in PcTokens(n, me, s.pcs[me])
    ensures Amount(n, s, t) > 0
  {
    var u := PcSide(n, s.pcs);
    UnionUpdate(u, me, multiset{});
    assert t in u[me];
  }

  /** A token some queue holds is among all tokens. */
  lemma QueuedTokenPresent(n: nat, s: State, i: nat, t: Token)
    requires WellFormed(n, s) && i < n && t in QueueTokens(n, i, s.queues[i])
    ensures Amount(n, s, t) > 0
  {
    var u := QueueSide(n, s.queues);
    UnionUpdate(u, i, multiset{});
    assert t in u[i];
  }

  // --- Semaphore accounting -------------------------------------------------------

  function Taken(pc: Pc): nat {
    if pc.Receiving? then 1 else 0
  }

  /** The adds to queue i that have not been announced yet, process by process. */
  function Unposted(pcs: seq<Pc>, i: nat): (u: seq<nat>)
    ensures |u| == |pcs|
    ensures forall j :: 0 <= j < |pcs| ==> u[j] == if pcs[j] == Posting(i) then 1 else 0
  {
    seq(|pcs|, j requires 0 <= j < |pcs| => if pcs[j] == Posting(i) then 1 else 0)
  }

  lemma UnpostedMove(pcs: seq<Pc>, me: nat, pc: Pc, i: nat)
    requires me < |pcs|
    ensures Total(Unposted(pcs[me := pc], i)) + (if pcs[me] == Posting(i) then 1 else 0)
         == Total(Unposted(pcs, i)) + (if pc == Posting(i) then 1 else 0)
  {
    var x: nat := if pc == Posting(i) then 1 else 0;
    assert Unposted(pcs[me := pc], i) == Unposted(pcs, i)[me := x];
    TotalUpdate(Unposted(pcs, i), me, x);
  }

  /** Queue i holds what its semaphore announces, what its process has been promised and
      not yet taken, and what has been added and not yet announced. */
  ghost predicate Balanced(s: State, i: nat)
    requires i < |s.queues| && i < |s.sems| && i < |s.pcs|
  {
    |s.queues[i]| == s.sems[i] + Taken(s.pcs[i]) + Total(Unposted(s.pcs, i))
  }

  ghost predicate Accounted(n: nat, s: State)
    requires WellFormed(n, s)
  {
    forall i :: 0 <= i < n ==> Balanced(s, i)
  }

  /** Every programmer owns one token in the whole system: the one a prescribes. */
  ghost predicate TokensAgree(n: nat, s: State, a: seq<Work>)
    requires WellFormed(n, s)
  {
    forall t :: Amount(n, s, t) == Share(a, t)
  }

  lemma AgreeIffEqual(n: nat, s: State, a: seq<Work>)
    requires WellFormed(n, s)
    ensures TokensAgree(n, s, a) <==> AllTokens(n, s) == Tokens(a)
  {
    forall t ensures Tokens(a)[t] == Share(a, t) {
      TokensMember(a, t);
      TokensUnique(a, t);
    }
    if TokensAgree(n, s, a) {
      forall t ensures AllTokens(n, s)[t] == Tokens(a)[t] {
        assert Amount(n, s, t) == Share(a, t);
      }
    }
  }

  /** The concrete state s is at abstract state a: same tokens, and the semaphores agree
      with the queues. */
  ghost predicate Refines(n: nat, s: State, a: seq<Work>) {
    && WellFormed(n, s)
    && |a| == n
    && Valid(a)
    && TokensAgree(n, s, a)
    && Accounted(n, s)
  }
}
