/** The message-queue program plays the token-passing protocol, whatever the schedule. */
module MessageQueueProof {
  import opened Sums
  import opened TokenPassing
  import opened MessageQueueReview
  import opened Sequences

  // --- What a token in the system says about the abstract state ---------------------

  /** What a task at process `at` must be when its token is one of the protocol's. */
  lemma TokenMeansTask(n: nat, a: seq<Work>, at: nat, task: int)
    requires |a| == n && Valid(a) && at < n
    requires Share(a, TokenOf(n, at, task)) > 0
    ensures -1 <= task < 2 * n
    ensures task == WRITE_TASK ==> a[at] == Writing
    ensures 0 <= task < n ==> task != at && a[task] == Review(at)
    ensures n <= task ==> task - n != at && a[task - n] == ReReview(at)
  {
  }

  /** A held task is the one its owner's abstract state prescribes. */
  lemma HeldTask(n: nat, s: State, a: seq<Work>, me: nat, task: int)
    requires Refines(n, s, a) && me < n && s.pcs[me] == Deciding(task)
    ensures -1 <= task < 2 * n
    ensures task == WRITE_TASK ==> a[me] == Writing
    ensures 0 <= task < n ==> task != me && a[task] == Review(me)
    ensures n <= task ==> task - n != me && a[task - n] == ReReview(me)
  {
    HeldTokenPresent(n, s, me, TokenOf(n, me, task));
    TokenMeansTask(n, a, me, task);
  }

  /** So is a task on its way, seen from the process it is sent to. */
  lemma SentTask(n: nat, s: State, a: seq<Work>, me: nat, d: nat, task: int)
    requires Refines(n, s, a) && me < n && s.pcs[me] == Sending(d, task)
    ensures -1 <= task < 2 * n
    ensures task == WRITE_TASK ==> a[d] == Writing
    ensures 0 <= task < n ==> task != d && a[task] == Review(d)
    ensures n <= task ==> task - n != d && a[task - n] == ReReview(d)
  {
    HeldTokenPresent(n, s, me, TokenOf(n, d, task));
    TokenMeansTask(n, a, d, task);
  }

  /** A queued task is the one its owner's abstract state prescribes. */
  lemma QueuedTask(n: nat, s: State, a: seq<Work>, i: nat, k: nat)
    requires Refines(n, s, a) && i < n && k < |s.queues[i]|
    ensures -1 <= s.queues[i][k] < 2 * n
    ensures s.queues[i][k] == WRITE_TASK ==> a[i] == Writing
    ensures 0 <= s.queues[i][k] < n ==> s.queues[i][k] != i && a[s.queues[i][k]] == Review(i)
    ensures n <= s.queues[i][k] ==> s.queues[i][k] - n != i && a[s.queues[i][k] - n] == ReReview(i)
  {
    QueueTokensMember(n, i, s.queues[i], k);
    QueuedTokenPresent(n, s, i, TokenOf(n, i, s.queues[i][k]));
    TokenMeansTask(n, a, i, s.queues[i][k]);
  }

  // --- One step ------------------------------------------------------------------------

  function OwnerOf(n: nat, me: nat, task: int): int {
    if task == WRITE_TASK then me else if task < n then task else task - n
  }

  /** The decision of process me on the task it holds. */
  function DecisionOn(n: nat, me: nat, task: int, c: Choice): seq<Decision> {
    var o := OwnerOf(n, me, task);
    if o >= 0 then [Decision(o, me, c)] else []
  }

  /** The decision a step takes, if it takes one. */
  ghost function Decided(n: nat, s: State, e: Event): seq<Decision>
    requires WellFormed(n, s)
  {
    if e.me < n && s.pcs[e.me].Deciding? then DecisionOn(n, e.me, s.pcs[e.me].task, e.choice) else []
  }

  lemma PlayOne(a: seq<Work>, d: Decision)
    requires Legal(a, d)
    ensures Play(a, [d]) == Some(Apply(a, d))
  {
    assert [d][1..] == [];
    assert Play(Apply(a, d), []) == Some(Apply(a, d));
  }

  /** The protocol's view of a decision: it is legal, and the token the process holds
      afterwards is the one the protocol prescribes. */
  lemma DecisionIsLegal(n: nat, s: State, a: seq<Work>, me: nat, task: int, c: Choice)
    requires Refines(n, s, a) && me < n && s.pcs[me] == Deciding(task)
    requires DrawEnds(n, me, task, c)
    ensures var o := OwnerOf(n, me, task);
      && 0 <= o < n
      && Legal(a, Decision(o, me, c))
      && TokenOf(n, me, task) == Token(o, a[o])
      && Outcome(n, me, task, c).Some?
      && var (d, t) := Outcome(n, me, task, c).value;
         TokenOf(n, d, t) == Token(o, Advance(a[o], c))
  {
    HeldTask(n, s, a, me, task);
  }

  /** A process exchanging the token it holds exchanges it in the whole system. */
  lemma ExchangeToken(n: nat, s: State, me: nat, pc: Pc, was: Token, now: Token)
    requires WellFormed(n, s) && me < n && WellFormed(n, s.(pcs := s.pcs[me := pc]))
    requires PcTokens(n, me, s.pcs[me]) == multiset{was} && PcTokens(n, me, pc) == multiset{now}
    ensures AllTokens(n, s.(pcs := s.pcs[me := pc])) == AllTokens(n, s) - multiset{was} + multiset{now}
  {
    PcMove(n, s.pcs, me, pc);
    Regroup(Union(QueueSide(n, s.queues)), Union(PcSide(n, s.pcs)), multiset{was}, multiset{now});
  }

  lemma Regroup<T>(q: multiset<T>, p: multiset<T>, was: multiset<T>, now: multiset<T>)
    requires was <= p
    ensures q + (p - was + now) == (q + p) - was + now
  {
  }

  lemma AgreeAfterExchange(n: nat, s: State, a: seq<Work>, me: nat, pc: Pc, o: nat, w: Work)
    requires WellFormed(n, s) && me < n && WellFormed(n, s.(pcs := s.pcs[me := pc]))
    requires TokensAgree(n, s, a) && o < |a|
    requires PcTokens(n, me, s.pcs[me]) == multiset{Token(o, a[o])} && PcTokens(n, me, pc) == multiset{Token(o, w)}
    ensures TokensAgree(n, s.(pcs := s.pcs[me := pc]), a[o := w])
  {
    ExchangeToken(n, s, me, pc, Token(o, a[o]), Token(o, w));
    TokensUpdate(a, o, w);
    AgreeIffEqual(n, s, a);
    AgreeIffEqual(n, s.(pcs := s.pcs[me := pc]), a[o := w]);
  }

  lemma DecideTokens(n: nat, capacity: nat, s: State, a: seq<Work>, e: Event, t: State)
    requires Refines(n, s, a) && Step(n, capacity, s, e) == Some(t)
    requires s.pcs[e.me].Deciding?
    ensures Play(a, Decided(n, s, e)).Some?
    ensures var b := Play(a, Decided(n, s, e)).value;
      |b| == n && Valid(b) && TokensAgree(n, t, b)
  {
    var me := e.me;
    var task := s.pcs[me].task;
    DecisionIsLegal(n, s, a, me, task, e.choice);
    var o := OwnerOf(n, me, task);
    PlayOne(a, Decision(o, me, e.choice));
    assert t == s.(pcs := s.pcs[me := t.pcs[me]]);
    AgreeAfterExchange(n, s, a, me, t.pcs[me], o, Advance(a[o], e.choice));
  }

  lemma ReceiveTokens(n: nat, s: State, me: nat)
    requires WellFormed(n, s) && me < n && s.pcs[me].Receiving? && s.queues[me] != []
    ensures var q := s.queues[me];
      AllTokens(n, s.(queues := s.queues[me := q[1..]], pcs := s.pcs[me := Deciding(q[0])])) == AllTokens(n, s)
  {
    var q := s.queues[me];
    PcMove(n, s.pcs, me, Deciding(q[0]));
    QueueMove(n, s.queues, me, q[1..]);
    var x := multiset{TokenOf(n, me, q[0])};
    TakeOver(Union(QueueSide(n, s.queues)), Union(PcSide(n, s.pcs)), x, QueueTokens(n, me, q[1..]));
  }

  lemma TakeOver<T>(q: multiset<T>, p: multiset<T>, x: multiset<T>, rest: multiset<T>)
    requires x + rest <= q
    ensures (q - (x + rest) + rest) + (p - multiset{} + x) == q + p
  {
  }

  lemma SendTokens(n: nat, s: State, me: nat)
    requires WellFormed(n, s) && me < n && s.pcs[me].Sending?
    ensures var Sending(d, m) := s.pcs[me];
      AllTokens(n, s.(queues := s.queues[d := s.queues[d] + [m]], pcs := s.pcs[me := Posting(d)])) == AllTokens(n, s)
  {
    var Sending(d, m) := s.pcs[me];
    PcMove(n, s.pcs, me, Posting(d));
    QueueMove(n, s.queues, d, s.queues[d] + [m]);
    QueueTokensAppend(n, d, s.queues[d], m);
    var x := multiset{TokenOf(n, d, m)};
    HandOver(Union(QueueSide(n, s.queues)), Union(PcSide(n, s.pcs)), x, QueueTokens(n, d, s.queues[d]));
  }

  lemma HandOver<T>(q: multiset<T>, p: multiset<T>, x: multiset<T>, rest: multiset<T>)
    requires x <= p && rest <= q
    ensures (q - rest + (rest + x)) + (p - x + multiset{}) == q + p
  {
  }

  lemma MoveTokens(n: nat, capacity: nat, s: State, e: Event, t: State)
    requires WellFormed(n, s) && Step(n, capacity, s, e) == Some(t)
    requires !s.pcs[e.me].Deciding?
    ensures forall x :: Amount(n, t, x) == Amount(n, s, x)
  {
    var me := e.me;
    match s.pcs[me]
    case Waiting => PcMove(n, s.pcs, me, Receiving);
    case Posting(d) => PcMove(n, s.pcs, me, Waiting);
    case Receiving => ReceiveTokens(n, s, me);
    case Sending(d, m) => SendTokens(n, s, me);
  }

  lemma StepAccounted(n: nat, capacity: nat, s: State, e: Event, t: State)
    requires WellFormed(n, s) && Accounted(n, s) && Step(n, capacity, s, e) == Some(t)
    ensures Accounted(n, t)
  {
    forall i | 0 <= i < n ensures Balanced(t, i) {
      assert Balanced(s, i);
      UnpostedMove(s.pcs, e.me, t.pcs[e.me], i);
      assert t.pcs == s.pcs[e.me := t.pcs[e.me]];
    }
  }

  /** Each step of the program is a step of the protocol: the decision it takes is a legal
      one with exactly the protocol's effect, and every other step changes nothing. */
  lemma StepRefines(n: nat, capacity: nat, s: State, a: seq<Work>, e: Event)
    requires Refines(n, s, a) && Step(n, capacity, s, e).Some?
    ensures Play(a, Decided(n, s, e)).Some?
    ensures Refines(n, Step(n, capacity, s, e).value, Play(a, Decided(n, s, e)).value)
  {
    var t := Step(n, capacity, s, e).value;
    StepAccounted(n, capacity, s, e, t);
    if s.pcs[e.me].Deciding? {
      DecideTokens(n, capacity, s, a, e, t);
    } else {
      MoveTokens(n, capacity, s, e, t);
    }
  }

  // --- Whole runs ------------------------------------------------------------------------

  lemma OneWriteTask(n: nat, i: nat)
    ensures QueueTokens(n, i, [WRITE_TASK]) == multiset{Token(i, Writing)}
  {
    assert [WRITE_TASK][1..] == [];
    assert QueueTokens(n, i, []) == multiset{};
  }

  lemma StartTokens(n: nat)
    ensures TokensAgree(n, MessageQueueReview.Start(n), TokenPassing.Start(n))
  {
    var s := MessageQueueReview.Start(n);
    var a := TokenPassing.Start(n);
    var u := QueueSide(n, s.queues);
    forall i | 0 <= i < n ensures u[i] == multiset{TokenSeq(a)[i]} {
      OneWriteTask(n, i);
    }
    UnionOfSingletons(u, TokenSeq(a));
    UnionEmpty(PcSide(n, s.pcs));
    AgreeIffEqual(n, s, a);
  }

  lemma StartRefines(n: nat)
    ensures Refines(n, MessageQueueReview.Start(n), TokenPassing.Start(n))
  {
    var s := MessageQueueReview.Start(n);
    StartTokens(n);
    forall i | 0 <= i < n ensures Balanced(s, i) {
      TotalZero(Unposted(s.pcs, i));
    }
  }

  lemma {:induction false} UnionOfSingletons<T>(u: seq<multiset<T>>, t: seq<T>)
    requires |u| == |t|
    requires forall i :: 0 <= i < |u| ==> u[i] == multiset{t[i]}
    ensures Union(u) == multiset(t)
  {
    if u != [] {
      UnionOfSingletons(u[1..], t[1..]);
      HeadAndTail(t);
      assert multiset(t) == multiset{t[0]} + multiset(t[1..]);
    }
  }

  /** The decisions taken along a schedule, in order. */
  ghost function Decisions(n: nat, capacity: nat, s: State, schedule: seq<Event>): seq<Decision>
    requires WellFormed(n, s)
    decreases |schedule|
  {
    if schedule == [] then []
    else match Step(n, capacity, s, schedule[0])
         case None => []
         case Some(t) => Decided(n, s, schedule[0]) + Decisions(n, capacity, t, schedule[1..])
  }

  /** Refinement over whole runs, from any state that refines the protocol. */
  lemma {:induction false} RunRefines(n: nat, capacity: nat, s: State, a: seq<Work>, schedule: seq<Event>)
    requires Refines(n, s, a) && Run(n, capacity, s, schedule).Some?
    ensures Play(a, Decisions(n, capacity, s, schedule)).Some?
    ensures Refines(n, Run(n, capacity, s, schedule).value, Play(a, Decisions(n, capacity, s, schedule)).value)
    decreases |schedule|
  {
    if schedule != [] {
      StepRefines(n, capacity, s, a, schedule[0]);
      var t := Step(n, capacity, s, schedule[0]).value;
      var now := Decided(n, s, schedule[0]);
      var b := Play(a, now).value;
      RunRefines(n, capacity, t, b, schedule[1..]);
      PlayAppend(a, now, Decisions(n, capacity, t, schedule[1..]));
    }
  }

  /** A run from the initial state is a play of the protocol from its initial state. */
  lemma ProgramRefinesProtocol(n: nat, capacity: nat, schedule: seq<Event>) returns (a: seq<Work>)
    requires Run(n, capacity, MessageQueueReview.Start(n), schedule).Some?
    ensures Play(TokenPassing.Start(n), Decisions(n, capacity, MessageQueueReview.Start(n), schedule)) == Some(a)
    ensures Refines(n, Run(n, capacity, MessageQueueReview.Start(n), schedule).value, a)
  {
    StartRefines(n);
    RunRefines(n, capacity, MessageQueueReview.Start(n), TokenPassing.Start(n), schedule);
    a := Play(TokenPassing.Start(n), Decisions(n, capacity, MessageQueueReview.Start(n), schedule)).value;
  }

  // --- What the protocol gives the program --------------------------------------------------

  /** A programmer about to receive finds a message; one about to send finds fewer than n
      messages in the queue, so with n <= capacity neither call ever blocks. */
  lemma CallsNeverBlock(n: nat, s: State, a: seq<Work>, me: nat)
    requires Refines(n, s, a) && me < n
    ensures s.pcs[me].Receiving? ==> s.queues[me] != []
    ensures s.pcs[me].Sending? ==> |s.queues[s.pcs[me].dest]| < n
    ensures forall i :: 0 <= i < n ==> |s.queues[i]| <= n
  {
    forall i | 0 <= i < n ensures |s.queues[i]| <= n {
      QueueBound(n, s, a, i);
    }
    if s.pcs[me].Receiving? {
      assert Balanced(s, me);
    }
    if s.pcs[me].Sending? {
      HeldAndQueuedBound(n, s, a, me, s.pcs[me].dest);
    }
  }

  /** What process me holds and what waits in queue d are at most n tasks together. */
  lemma HeldAndQueuedBound(n: nat, s: State, a: seq<Work>, me: nat, d: nat)
    requires Refines(n, s, a) && me < n && d < n
    ensures |PcTokens(n, me, s.pcs[me])| + |s.queues[d]| <= n
  {
    AgreeIffEqual(n, s, a);
    PcMove(n, s.pcs, me, Waiting);
    QueueMove(n, s.queues, d, []);
    QueueTokensSize(n, d, s.queues[d]);
    SubsetSize(QueueTokens(n, d, s.queues[d]), Union(QueueSide(n, s.queues)));
    SubsetSize(PcTokens(n, me, s.pcs[me]), Union(PcSide(n, s.pcs)));
    TokensUnique(a, Token(0, Writing));
  }

  lemma SubsetSize<T>(x: multiset<T>, y: multiset<T>)
    requires x <= y
    ensures |x| <= |y|
  {
    assert y == x + (y - x);
  }

  lemma QueueBound(n: nat, s: State, a: seq<Work>, i: nat)
    requires Refines(n, s, a) && i < n
    ensures |s.queues[i]| <= n
  {
    HeldAndQueuedBound(n, s, a, i, i);
  }

  // --- All queues together ------------------------------------------------------------------

  function Lengths(queues: seq<seq<int>>): (u: seq<nat>)
    ensures |u| == |queues| && forall i :: 0 <= i < |queues| ==> u[i] == |queues[i]|
  {
    seq(|queues|, i requires 0 <= i < |queues| => |queues[i]|)
  }

  lemma {:induction false} UnionSize<T>(u: seq<multiset<T>>, sizes: seq<nat>)
    requires |u| == |sizes|
    requires forall i :: 0 <= i < |u| ==> |u[i]| == sizes[i]
    ensures |Union(u)| == Total(sizes)
  {
    if u != [] {
      UnionSize(u[1..], sizes[1..]);
    }
  }

  /** At most n messages are present, in all queues together. */
  lemma MessagesBounded(n: nat, s: State, a: seq<Work>)
    requires Refines(n, s, a)
    ensures Total(Lengths(s.queues)) <= n
  {
    var u := QueueSide(n, s.queues);
    forall i | 0 <= i < n ensures |u[i]| == Lengths(s.queues)[i] {
      QueueTokensSize(n, i, s.queues[i]);
    }
    UnionSize(u, Lengths(s.queues));
    AgreeIffEqual(n, s, a);
    SubsetSize(Union(u), AllTokens(n, s));
    TokensUnique(a, Token(0, Writing));
  }

  ghost predicate Enabled(n: nat, capacity: nat, s: State, me: nat)
    requires WellFormed(n, s)
  {
    exists c :: Step(n, capacity, s, Event(me, c)).Some?
  }

  /** A process that has a task to work on, to receive, to send or to announce can move. */
  lemma BusyIsEnabled(n: nat, capacity: nat, s: State, a: seq<Work>, me: nat)
    requires 2 <= n <= capacity && Refines(n, s, a) && me < n
    requires !s.pcs[me].Waiting? || s.sems[me] > 0
    ensures Enabled(n, capacity, s, me)
  {
    CallsNeverBlock(n, s, a, me);
    var c := Choice(if me == 0 then 1 else 0, true);
    assert Step(n, capacity, s, Event(me, c)).Some?;
  }

  /** Deadlock freedom: somebody can always move. */
  lemma NeverDeadlocked(n: nat, capacity: nat, s: State, a: seq<Work>) returns (me: nat)
    requires 2 <= n <= capacity && Refines(n, s, a)
    ensures me < n && Enabled(n, capacity, s, me)
  {
    assert Amount(n, s, Token(0, a[0])) == Share(a, Token(0, a[0]));
    if j :| 0 <= j < n && (!s.pcs[j].Waiting? || s.sems[j] > 0) {
      me := j;
      BusyIsEnabled(n, capacity, s, a, me);
    } else {
      forall i | 0 <= i < n ensures s.queues[i] == [] && !s.pcs[i].Posting? {
        assert Balanced(s, i);
        TotalZero(Unposted(s.pcs, i));
      }
      SleepersOwnNothing(n, s);
      assert false;
    }
  }

  lemma SleepersOwnNothing(n: nat, s: State)
    requires WellFormed(n, s)
    requires forall i :: 0 <= i < n ==> s.queues[i] == [] && s.pcs[i].Waiting?
    ensures forall t :: Amount(n, s, t) == 0
  {
    UnionEmpty(QueueSide(n, s.queues));
    UnionEmpty(PcSide(n, s.pcs));
  }

  /** No receive and no send blocks in any state the program can reach, at most n messages
      are present, and somebody can always move. */
  lemma EveryReachableState(n: nat, capacity: nat, schedule: seq<Event>, s: State) returns (me: nat)
    requires 2 <= n <= capacity
    requires Run(n, capacity, MessageQueueReview.Start(n), schedule) == Some(s)
    ensures forall i :: 0 <= i < n && s.pcs[i].Receiving? ==> s.queues[i] != []
    ensures forall i :: 0 <= i < n && s.pcs[i].Sending? ==> |s.queues[s.pcs[i].dest]| < capacity
    ensures Total(Lengths(s.queues)) <= n
    ensures me < n && Enabled(n, capacity, s, me)
  {
    var a := ProgramRefinesProtocol(n, capacity, schedule);
    forall i | 0 <= i < n
      ensures s.pcs[i].Receiving? ==> s.queues[i] != []
      ensures s.pcs[i].Sending? ==> |s.queues[s.pcs[i].dest]| < capacity
    {
      CallsNeverBlock(n, s, a, i);
    }
    MessagesBounded(n, s, a);
    me := NeverDeadlocked(n, capacity, s, a);
  }
}
