/** From every state the shared-memory program can reach, every programmer's program can still be
    accepted, be sent to any reviewer and be rejected by any reviewer: no interleaving locks a
    program out for good. The proof builds the schedule, always moving the process that stands
    between the program and the decision that is wanted. */
module ReviewProgress {
  import opened Sums
  import opened TokenPassing
  import opened SharedMemoryReview
  import opened SharedMemoryProof
  import opened ReviewRuns
  import Mq = MessageQueueReview
  import MqProof = MessageQueueProof

  /** Steps a process needs, at most, until it gets its next task. */
  function Distance(pc: Pc): nat {
    match pc
    case Getting => 0
    case GetLock => 1
    case Waiting => 2
    case Posting(_) => 3
    case AddUnlock(_) => 4
    case Adding(_, _) => 5
    case AddLock(_, _) => 6
    case Deciding(_) => 7
    case GetUnlock(_) => 8
  }

  /** Steps the processes inside the critical section need to leave it. */
  function LeavingSteps(pc: Pc): nat {
    match pc
    case Getting => 2
    case Adding(_, _) => 2
    case GetUnlock(_) => 1
    case AddUnlock(_) => 1
    case _ => 0
  }

  function Leaving(pcs: seq<Pc>): (u: seq<nat>)
    ensures |u| == |pcs| && forall j :: 0 <= j < |pcs| ==> u[j] == LeavingSteps(pcs[j])
  {
    seq(|pcs|, j requires 0 <= j < |pcs| => LeavingSteps(pcs[j]))
  }

  lemma LeavingMove(pcs: seq<Pc>, me: nat, pc: Pc)
    requires me < |pcs|
    ensures Total(Leaving(pcs[me := pc])) + LeavingSteps(pcs[me]) == Total(Leaving(pcs)) + LeavingSteps(pc)
  {
    assert Leaving(pcs[me := pc]) == Leaving(pcs)[me := LeavingSteps(pc)];
    TotalUpdate(Leaving(pcs), me, LeavingSteps(pc));
  }

  /** How many posts to h are outstanding. */
  function Due(s: State, h: nat): nat {
    Total(Seen(s.pcs, h))
  }

  function Seen(pcs: seq<Pc>, h: nat): (u: seq<nat>)
    ensures |u| == |pcs|
    ensures forall j :: 0 <= j < |pcs| ==> u[j] == if pcs[j] == AddUnlock(h) || pcs[j] == Posting(h) then 1 else 0
  {
    seq(|pcs|, j requires 0 <= j < |pcs| => if pcs[j] == AddUnlock(h) || pcs[j] == Posting(h) then 1 else 0)
  }

  lemma DueMove(s: State, me: nat, pc: Pc, h: nat)
    requires me < |s.pcs|
    ensures Total(Seen(s.pcs[me := pc], h)) + Seen(s.pcs, h)[me]
         == Due(s, h) + (if pc == AddUnlock(h) || pc == Posting(h) then 1 else 0)
  {
    var x: nat := if pc == AddUnlock(h) || pc == Posting(h) then 1 else 0;
    assert Seen(s.pcs[me := pc], h) == Seen(s.pcs, h)[me := x];
    TotalUpdate(Seen(s.pcs, h), me, x);
  }

  /** What can be brought about for the program of p: somebody accepts it, p sends it to q, or q
      rejects it. */
  datatype Goal = Accepted | Sent(receiver: nat) | Rejected(judge: nat)

  predicate Meant(n: nat, p: nat, goal: Goal) {
    match goal
    case Accepted => true
    case Sent(q) => q < n && q != p
    case Rejected(q) => q < n && q != p
  }

  /** How many decisions about the program lie before the one that is wanted. */
  function Stage(goal: Goal, w: Work): nat {
    match goal
    case Accepted => if w.Writing? then 1 else 0
    case Sent(_) => if w.Writing? then 0 else 1
    case Rejected(q) => if w.Writing? then 1 else if w.judge == q then 0 else 2
  }

  /** The decision has just been taken. */
  ghost predicate Reached(n: nat, s: State, p: nat, goal: Goal)
    requires WellFormed(n, s)
  {
    match goal
    case Accepted => exists r :: 0 <= r < n && r != p && s.pcs[r] == AddLock(p, -1)
    case Sent(q) => p < n && s.pcs[p] == AddLock(q, p)
    case Rejected(q) => q < n && s.pcs[q] == AddLock(q, p + n)
  }

  ghost predicate Ends(n: nat, capacity: nat, s: State, schedule: seq<Mq.Event>, p: nat, goal: Goal)
    requires WellFormed(n, s)
  {
    var t := Run(n, capacity, s, schedule);
    t.Some? && Reached(n, t.value, p, goal)
  }

  lemma Prepend(n: nat, capacity: nat, s: State, e: Mq.Event, t: State, rest: seq<Mq.Event>, p: nat, goal: Goal)
    requires WellFormed(n, s) && Step(n, capacity, s, e) == Some(t)
    requires Ends(n, capacity, t, rest, p, goal)
    ensures Ends(n, capacity, s, [e] + rest, p, goal)
  {
    assert ([e] + rest)[1..] == rest;
  }

  /** A choice that lets anybody decide, and accepts. */
  function Kindly(me: nat): Choice {
    Choice(if me == 0 then 1 else 0, true)
  }

  /** A step other than a decision leaves the protocol where it is. */
  lemma QuietStep(n: nat, capacity: nat, s: State, a: seq<Work>, me: nat, t: State)
    requires n <= capacity && Refines(n, s, a) && me < n && !s.pcs[me].Deciding?
    requires Step(n, capacity, s, Mq.Event(me, Kindly(me))) == Some(t)
    ensures Refines(n, t, a)
  {
    StepRefines(n, capacity, s, a, Mq.Event(me, Kindly(me)));
    assert Play(a, []) == Some(a);
  }

  /** State t is nearer than s to process h taking its next task. */
  ghost predicate Nearer(s: State, t: State, h: nat)
    requires h < |s.pcs| && h < |t.pcs|
  {
    var ds, dt := Distance(s.pcs[h]), Distance(t.pcs[h]);
    var ls, lt := Total(Leaving(s.pcs)), Total(Leaving(t.pcs));
    dt < ds || (dt == ds && (lt < ls || (lt == ls && Due(t, h) < Due(s, h))))
  }

  lemma InsiderStep(n: nat, capacity: nat, s: State, h: nat, j: nat) returns (t: State)
    requires WellFormed(n, s) && h < n && j < n && j != h && s.pcs[j].Inside()
    ensures Step(n, capacity, s, Mq.Event(j, Kindly(j))) == Some(t)
    ensures s.queues[h] <= t.queues[h] && t.pcs[h] == s.pcs[h]
    ensures Nearer(s, t, h)
  {
    t := Step(n, capacity, s, Mq.Event(j, Kindly(j))).value;
    assert t.pcs == s.pcs[j := t.pcs[j]];
    LeavingMove(s.pcs, j, t.pcs[j]);
  }

  lemma PosterStep(n: nat, capacity: nat, s: State, h: nat, j: nat) returns (t: State)
    requires WellFormed(n, s) && h < n && j < n && j != h
    requires s.pcs[j] == AddUnlock(h) || s.pcs[j] == Posting(h)
    ensures Step(n, capacity, s, Mq.Event(j, Kindly(j))) == Some(t)
    ensures s.queues[h] <= t.queues[h]
    ensures Nearer(s, t, h)
  {
    t := Step(n, capacity, s, Mq.Event(j, Kindly(j))).value;
    assert t.pcs == s.pcs[j := t.pcs[j]];
    LeavingMove(s.pcs, j, t.pcs[j]);
    DueMove(s, j, t.pcs[j], h);
  }

  lemma HandlerStep(n: nat, capacity: nat, s: State, h: nat) returns (t: State)
    requires WellFormed(n, s) && h < n
    requires !s.pcs[h].Deciding? && !s.pcs[h].Getting?
    requires s.pcs[h].Waiting? ==> s.sems[h] > 0
    requires s.pcs[h].AddLock? || s.pcs[h].GetLock? ==> s.mutex > 0
    ensures Step(n, capacity, s, Mq.Event(h, Kindly(h))) == Some(t)
    ensures s.queues[h] <= t.queues[h]
    ensures Nearer(s, t, h)
  {
    t := Step(n, capacity, s, Mq.Event(h, Kindly(h))).value;
    assert t.pcs[h] != s.pcs[h] && Distance(t.pcs[h]) < Distance(s.pcs[h]);
  }

  /** When the mutex is taken, some process is inside. */
  lemma FindInsider(n: nat, s: State) returns (j: nat)
    requires WellFormed(n, s) && MutexAccounted(s) && s.mutex == 0
    ensures j < n && s.pcs[j].Inside()
  {
    TotalZero(Insiders(s.pcs));
    j :| 0 <= j < n && s.pcs[j].Inside();
  }

  lemma AccountedHere(n: nat, s: State, a: seq<Work>, h: nat)
    requires Refines(n, s, a) && h < n
    ensures WellFormed(n, s)
    ensures |s.queues[h]|
         == s.sems[h] + Mq.Taken(PcWithoutLock(s.pcs[h])) + Total(Mq.Unposted(PcsWithoutLock(s.pcs), h))
  {
    assert Mq.Balanced(WithoutLock(s), h);
    assert WithoutLock(s).pcs[h] == PcWithoutLock(s.pcs[h]);
  }

  /** A handler asleep beside a task has a post due. */
  lemma FindPoster(n: nat, s: State, h: nat) returns (j: nat)
    requires WellFormed(n, s) && h < n
    requires |s.queues[h]|
         == s.sems[h] + Mq.Taken(PcWithoutLock(s.pcs[h])) + Total(Mq.Unposted(PcsWithoutLock(s.pcs), h))
    requires s.pcs[h].Waiting? && s.sems[h] == 0 && s.queues[h] != []
    ensures j < n && (s.pcs[j] == AddUnlock(h) || s.pcs[j] == Posting(h))
  {
    var u := Mq.Unposted(PcsWithoutLock(s.pcs), h);
    TotalZero(u);
    j :| 0 <= j < n && u[j] != 0;
    assert PcWithoutLock(s.pcs[j]) == Mq.Posting(h);
  }

  /** Some process can make a move that brings h nearer to its next task. */
  lemma NextMove(n: nat, capacity: nat, s: State, a: seq<Work>, h: nat) returns (j: nat, t: State)
    requires 2 <= n <= capacity && Refines(n, s, a) && h < n
    requires !s.pcs[h].Deciding? && !s.pcs[h].Getting?
    requires s.queues[h] != [] || !s.pcs[h].Waiting?
    ensures j < n && !s.pcs[j].Deciding?
    ensures Step(n, capacity, s, Mq.Event(j, Kindly(j))) == Some(t)
    ensures s.queues[h] <= t.queues[h]
    ensures Nearer(s, t, h)
    ensures s.pcs[h].AddLock? || s.pcs[h].GetLock? ==> j == h || t.pcs[h] == s.pcs[h]
  {
    if (s.pcs[h].AddLock? || s.pcs[h].GetLock?) && s.mutex == 0 {
      j := FindInsider(n, s);
      t := InsiderStep(n, capacity, s, h, j);
    } else if s.pcs[h].Waiting? && s.sems[h] == 0 {
      AccountedHere(n, s, a, h);
      j := FindPoster(n, s, h);
      t := PosterStep(n, capacity, s, h, j);
    } else {
      j := h;
      t := HandlerStep(n, capacity, s, h);
    }
  }

  /** p's task is held by process me. */
  lemma ReachHeld(n: nat, capacity: nat, s: State, a: seq<Work>, p: nat, me: nat, goal: Goal)
    returns (schedule: seq<Mq.Event>)
    requires 2 <= n <= capacity && Refines(n, s, a) && Meant(n, p, goal) && p < n && me < n
    requires Holds(s.pcs[me]) && OwnerOf(n, me, s.pcs[me].task) == p
    ensures Ends(n, capacity, s, schedule, p, goal)
    decreases Stage(goal, a[p]), 0, 0, Distance(s.pcs[me])
  {
    if s.pcs[me].GetUnlock? {
      var t := UnlockStep(n, capacity, s, me);
      QuietStep(n, capacity, s, a, me, t);
      schedule := ReachHeld(n, capacity, t, a, p, me, goal);
      Prepend(n, capacity, s, Mq.Event(me, Kindly(me)), t, schedule, p, goal);
      schedule := [Mq.Event(me, Kindly(me))] + schedule;
    } else if s.pcs[me].task == -1 {
      schedule := ReachWritten(n, capacity, s, a, p, goal);
    } else {
      HeldForReview(n, s, a, p, me);
      schedule := ReachNow(n, capacity, s, a, p, me, goal);
    }
  }

  lemma HeldForReview(n: nat, s: State, a: seq<Work>, p: nat, me: nat)
    requires Refines(n, s, a) && p < n && me < n && s.pcs[me].Deciding? && s.pcs[me].task != -1
    requires OwnerOf(n, me, s.pcs[me].task) == p
    ensures me != p && (s.pcs[me] == Deciding(p) || s.pcs[me] == Deciding(p + n))
  {
    HeldTask(n, s, a, me);
  }

  lemma UnlockStep(n: nat, capacity: nat, s: State, me: nat) returns (t: State)
    requires WellFormed(n, s) && me < n && s.pcs[me].GetUnlock?
    ensures Step(n, capacity, s, Mq.Event(me, Kindly(me))) == Some(t)
    ensures t.pcs[me] == Deciding(s.pcs[me].task)
  {
    t := Step(n, capacity, s, Mq.Event(me, Kindly(me))).value;
  }

  /** One decision, with any verdict and any reviewer but the author himself. */
  lemma DecisionStep(n: nat, capacity: nat, s: State, a: seq<Work>, me: nat, c: Choice) returns (t: State, b: seq<Work>)
    requires 2 <= n <= capacity && Refines(n, s, a) && me < n && s.pcs[me].Deciding?
    requires c.reviewer < n && c.reviewer != me
    ensures Step(n, capacity, s, Mq.Event(me, c)) == Some(t)
    ensures Refines(n, t, b)
  {
    var e := Mq.Event(me, c);
    t := Step(n, capacity, s, e).value;
    StepRefines(n, capacity, s, a, e);
    b := Play(a, Decided(n, s, e)).value;
  }

  /** A reviewer decides: against the program if that is the goal and he is the one, otherwise in
      favour. */
  lemma ReachNow(n: nat, capacity: nat, s: State, a: seq<Work>, p: nat, me: nat, goal: Goal)
    returns (schedule: seq<Mq.Event>)
    requires 2 <= n <= capacity && Refines(n, s, a) && p < n && me < n && Meant(n, p, goal)
    requires me != p && (s.pcs[me] == Deciding(p) || s.pcs[me] == Deciding(p + n))
    ensures Ends(n, capacity, s, schedule, p, goal)
    decreases Stage(goal, a[p]), 0, 0, 0
  {
    HeldTask(n, s, a, me);
    var c := Choice(p, goal != Rejected(me));
    var t, b := DecisionStep(n, capacity, s, a, me, c);
    if goal == Accepted || goal == Rejected(me) {
      assert Reached(n, t, p, goal) by {
        assert t.pcs[me] == if goal == Accepted then AddLock(p, -1) else AddLock(me, p + n);
      }
      schedule := [];
      assert Ends(n, capacity, t, schedule, p, goal);
    } else {
      CarriedTask(n, t, b, me);
      schedule := ReachCarried(n, capacity, t, b, p, me, goal);
    }
    Prepend(n, capacity, s, Mq.Event(me, c), t, schedule, p, goal);
    schedule := [Mq.Event(me, c)] + schedule;
  }

  /** The author hands p's program to a reviewer, to the one in the goal if there is one. */
  lemma ReachWritten(n: nat, capacity: nat, s: State, a: seq<Work>, p: nat, goal: Goal)
    returns (schedule: seq<Mq.Event>)
    requires 2 <= n <= capacity && Refines(n, s, a) && p < n && Meant(n, p, goal)
    requires s.pcs[p] == Deciding(-1)
    ensures Ends(n, capacity, s, schedule, p, goal)
    decreases Stage(goal, a[p]), 0, 0, 0
  {
    HeldTask(n, s, a, p);
    var c := match goal
      case Accepted => Kindly(p)
      case Sent(q) => Choice(q, true)
      case Rejected(q) => Choice(q, true);
    var t, b := DecisionStep(n, capacity, s, a, p, c);
    if goal.Sent? {
      schedule := [];
      assert Ends(n, capacity, t, schedule, p, goal);
    } else {
      CarriedTask(n, t, b, p);
      schedule := ReachCarried(n, capacity, t, b, p, p, goal);
    }
    Prepend(n, capacity, s, Mq.Event(p, c), t, schedule, p, goal);
    schedule := [Mq.Event(p, c)] + schedule;
  }

  /** p's task is on its way, carried by process me. */
  lemma ReachCarried(n: nat, capacity: nat, s: State, a: seq<Work>, p: nat, me: nat, goal: Goal)
    returns (schedule: seq<Mq.Event>)
    requires 2 <= n <= capacity && Refines(n, s, a) && Meant(n, p, goal) && p < n && me < n
    requires Carries(s.pcs[me]) && OwnerOf(n, s.pcs[me].dest, s.pcs[me].msg) == p
    ensures Ends(n, capacity, s, schedule, p, goal)
    decreases Stage(goal, a[p]), 2, 0, Distance(s.pcs[me]), Total(Leaving(s.pcs)), Due(s, me)
  {
    if s.pcs[me].Adding? {
      schedule := ReachAfterAdd(n, capacity, s, a, p, me, goal);
    } else {
      var j, t := NextMove(n, capacity, s, a, me);
      QuietStep(n, capacity, s, a, j, t);
      schedule := ReachCarried(n, capacity, t, a, p, me, goal);
      Prepend(n, capacity, s, Mq.Event(j, Kindly(j)), t, schedule, p, goal);
      schedule := [Mq.Event(j, Kindly(j))] + schedule;
    }
  }

  /** Process me is about to add p's task to a queue. */
  lemma ReachAfterAdd(n: nat, capacity: nat, s: State, a: seq<Work>, p: nat, me: nat, goal: Goal)
    returns (schedule: seq<Mq.Event>)
    requires 2 <= n <= capacity && Refines(n, s, a) && Meant(n, p, goal) && p < n && me < n
    requires s.pcs[me].Adding? && OwnerOf(n, s.pcs[me].dest, s.pcs[me].msg) == p
    ensures Ends(n, capacity, s, schedule, p, goal)
    decreases Stage(goal, a[p]), 2, 0, 0, 0, 0
  {
    var e := Mq.Event(me, Kindly(me));
    var t := Step(n, capacity, s, e).value;
    var d := s.pcs[me].dest;
    AddIsNeverDropped(n, capacity, s, a, me);
    QuietStep(n, capacity, s, a, me, t);
    schedule := ReachQueued(n, capacity, t, a, p, d, |s.queues[d]|, goal);
    Prepend(n, capacity, s, e, t, schedule, p, goal);
    schedule := [e] + schedule;
  }

  /** p's task is the k-th in the queue of process h. */
  lemma ReachQueued(n: nat, capacity: nat, s: State, a: seq<Work>, p: nat, h: nat, k: nat, goal: Goal)
    returns (schedule: seq<Mq.Event>)
    requires 2 <= n <= capacity && Refines(n, s, a) && Meant(n, p, goal) && p < n && h < n
    requires k < |s.queues[h]| && OwnerOf(n, h, s.queues[h][k]) == p
    ensures Ends(n, capacity, s, schedule, p, goal)
    decreases Stage(goal, a[p]), 1, k, Distance(s.pcs[h]), Total(Leaving(s.pcs)), Due(s, h), 1
  {
    if s.pcs[h].Deciding? {
      schedule := ReachAfterDecision(n, capacity, s, a, p, h, k, goal);
    } else if s.pcs[h].Getting? {
      schedule := ReachAfterGet(n, capacity, s, a, p, h, k, goal);
    } else {
      var j, t := NextMove(n, capacity, s, a, h);
      QuietStep(n, capacity, s, a, j, t);
      schedule := ReachQueued(n, capacity, t, a, p, h, k, goal);
      Prepend(n, capacity, s, Mq.Event(j, Kindly(j)), t, schedule, p, goal);
      schedule := [Mq.Event(j, Kindly(j))] + schedule;
    }
  }

  /** Process h is about to take its next task while p's task is the k-th in its queue. */
  lemma ReachAfterGet(n: nat, capacity: nat, s: State, a: seq<Work>, p: nat, h: nat, k: nat, goal: Goal)
    returns (schedule: seq<Mq.Event>)
    requires 2 <= n <= capacity && Refines(n, s, a) && Meant(n, p, goal) && p < n && h < n && s.pcs[h].Getting?
    requires k < |s.queues[h]| && OwnerOf(n, h, s.queues[h][k]) == p
    ensures Ends(n, capacity, s, schedule, p, goal)
    decreases Stage(goal, a[p]), 1, k, Distance(s.pcs[h]), Total(Leaving(s.pcs)), Due(s, h), 0
  {
    var e := Mq.Event(h, Kindly(h));
    var t := Step(n, capacity, s, e).value;
    QuietStep(n, capacity, s, a, h, t);
    if k == 0 {
      schedule := ReachHeld(n, capacity, t, a, p, h, goal);
    } else {
      schedule := ReachQueued(n, capacity, t, a, p, h, k - 1, goal);
    }
    Prepend(n, capacity, s, e, t, schedule, p, goal);
    schedule := [e] + schedule;
  }

  lemma OtherDecision(n: nat, capacity: nat, s: State, a: seq<Work>, p: nat, h: nat, t: State) returns (b: seq<Work>)
    requires 2 <= n <= capacity && Refines(n, s, a) && p < n && h < n && s.pcs[h].Deciding?
    requires OwnerOf(n, h, s.pcs[h].task) != p
    requires Step(n, capacity, s, Mq.Event(h, Kindly(h))) == Some(t)
    ensures Refines(n, t, b) && b[p] == a[p]
  {
    var e := Mq.Event(h, Kindly(h));
    HeldTask(n, s, a, h);
    StepRefines(n, capacity, s, a, e);
    b := Play(a, Decided(n, s, e)).value;
    MqProof.PlayOne(a, Decided(n, s, e)[0]);
  }

  lemma DeciderCanStep(n: nat, capacity: nat, s: State, a: seq<Work>, h: nat) returns (t: State)
    requires 2 <= n <= capacity && Refines(n, s, a) && h < n && s.pcs[h].Deciding?
    ensures Step(n, capacity, s, Mq.Event(h, Kindly(h))) == Some(t)
    ensures t.queues == s.queues && t.pcs[h].AddLock?
  {
    HeldTask(n, s, a, h);
    t := Step(n, capacity, s, Mq.Event(h, Kindly(h))).value;
  }

  /** Process h is about to decide while p's task waits in its queue. */
  lemma ReachAfterDecision(n: nat, capacity: nat, s: State, a: seq<Work>, p: nat, h: nat, k: nat, goal: Goal)
    returns (schedule: seq<Mq.Event>)
    requires 2 <= n <= capacity && Refines(n, s, a) && Meant(n, p, goal) && p < n && h < n && s.pcs[h].Deciding?
    requires k < |s.queues[h]| && OwnerOf(n, h, s.queues[h][k]) == p
    ensures Ends(n, capacity, s, schedule, p, goal)
    decreases Stage(goal, a[p]), 1, k, Distance(s.pcs[h]), Total(Leaving(s.pcs)), Due(s, h), 0
  {
    if OwnerOf(n, h, s.pcs[h].task) == p {
      schedule := ReachHeld(n, capacity, s, a, p, h, goal);
    } else {
      var e := Mq.Event(h, Kindly(h));
      var t := DeciderCanStep(n, capacity, s, a, h);
      var b := OtherDecision(n, capacity, s, a, p, h, t);
      schedule := ReachQueued(n, capacity, t, b, p, h, k, goal);
      Prepend(n, capacity, s, e, t, schedule, p, goal);
      schedule := [e] + schedule;
    }
  }

  // --- Wherever the task is ---------------------------------------------------------------

  lemma {:induction false} IndexOfToken(n: nat, at: nat, q: seq<int>, t: Token) returns (k: nat)
    requires t in Mq.QueueTokens(n, at, q)
    ensures k < |q| && Mq.TokenOf(n, at, q[k]) == t
    decreases |q|
  {
    if t == Mq.TokenOf(n, at, q[0]) {
      k := 0;
    } else {
      k := IndexOfToken(n, at, q[1..], t);
      k := k + 1;
    }
  }

  /** p's task is somewhere: in a queue, held or carried. */
  lemma FindTask(n: nat, s: State, a: seq<Work>, p: nat) returns (queued: bool, i: nat, k: nat)
    requires Refines(n, s, a) && p < n
    ensures i < n
    ensures queued ==> k < |s.queues[i]| && Mq.TokenOf(n, i, s.queues[i][k]) == Token(p, a[p])
    ensures !queued ==> Token(p, a[p]) in Mq.PcTokens(n, i, PcWithoutLock(s.pcs[i]))
  {
    var m := WithoutLock(s);
    var t := Token(p, a[p]);
    assert Mq.Amount(n, m, t) == Share(a, t);
    queued, k := t in Union(Mq.QueueSide(n, m.queues)), 0;
    if queued {
      i := UnionMember(Mq.QueueSide(n, m.queues), t);
      k := IndexOfToken(n, i, s.queues[i], t);
    } else {
      i := UnionMember(Mq.PcSide(n, m.pcs), t);
      assert m.pcs[i] == PcWithoutLock(s.pcs[i]);
    }
  }

  lemma OwnerOfHeld(n: nat, s: State, a: seq<Work>, p: nat, i: nat)
    requires Refines(n, s, a) && p < n && i < n
    requires Token(p, a[p]) in Mq.PcTokens(n, i, PcWithoutLock(s.pcs[i]))
    ensures Holds(s.pcs[i]) || Carries(s.pcs[i])
    ensures Holds(s.pcs[i]) ==> OwnerOf(n, i, s.pcs[i].task) == p
    ensures Carries(s.pcs[i]) ==> OwnerOf(n, s.pcs[i].dest, s.pcs[i].msg) == p
  {
  }

  /** From any state that refines the protocol, some schedule brings the goal about. */
  lemma CanReach(n: nat, capacity: nat, s: State, a: seq<Work>, p: nat, goal: Goal)
    returns (schedule: seq<Mq.Event>)
    requires 2 <= n <= capacity && Refines(n, s, a) && p < n && Meant(n, p, goal)
    ensures Ends(n, capacity, s, schedule, p, goal)
  {
    var queued, i, k := FindTask(n, s, a, p);
    if queued {
      schedule := ReachQueued(n, capacity, s, a, p, i, k, goal);
    } else {
      OwnerOfHeld(n, s, a, p, i);
      if Holds(s.pcs[i]) {
        schedule := ReachHeld(n, capacity, s, a, p, i, goal);
      } else {
        schedule := ReachCarried(n, capacity, s, a, p, i, goal);
      }
    }
  }

  /** No reachable state shuts any programmer out: somebody else can still accept his program. */
  lemma NobodyIsLockedOut(n: nat, capacity: nat, before: seq<Mq.Event>, s: State, p: nat)
    returns (schedule: seq<Mq.Event>, t: State, r: nat)
    requires 2 <= n <= capacity && p < n
    requires Run(n, capacity, SharedMemoryReview.Start(n), before) == Some(s)
    ensures Run(n, capacity, s, schedule) == Some(t)
    ensures r < n && r != p && t.pcs[r] == AddLock(p, -1)
  {
    var a := ProgramRefinesProtocol(n, capacity, before);
    schedule := CanReach(n, capacity, s, a, p, Accepted);
    t := Run(n, capacity, s, schedule).value;
    r :| 0 <= r < n && r != p && t.pcs[r] == AddLock(p, -1);
  }

  /** Nor does it settle who reviews: p can still send his program to any q but himself. */
  lemma AnyReviewerIsPossible(n: nat, capacity: nat, before: seq<Mq.Event>, s: State, p: nat, q: nat)
    returns (schedule: seq<Mq.Event>, t: State)
    requires 2 <= n <= capacity && p < n && q < n && q != p
    requires Run(n, capacity, SharedMemoryReview.Start(n), before) == Some(s)
    ensures Run(n, capacity, s, schedule) == Some(t) && t.pcs[p] == AddLock(q, p)
  {
    var a := ProgramRefinesProtocol(n, capacity, before);
    schedule := CanReach(n, capacity, s, a, p, Sent(q));
    t := Run(n, capacity, s, schedule).value;
  }

  /** Nor how he judges: any q but p can still reject the program of p. */
  lemma AnyRejectionIsPossible(n: nat, capacity: nat, before: seq<Mq.Event>, s: State, p: nat, q: nat)
    returns (schedule: seq<Mq.Event>, t: State)
    requires 2 <= n <= capacity && p < n && q < n && q != p
    requires Run(n, capacity, SharedMemoryReview.Start(n), before) == Some(s)
    ensures Run(n, capacity, s, schedule) == Some(t) && t.pcs[q] == AddLock(q, p + n)
  {
    var a := ProgramRefinesProtocol(n, capacity, before);
    schedule := CanReach(n, capacity, s, a, p, Rejected(q));
    t := Run(n, capacity, s, schedule).value;
  }
}
