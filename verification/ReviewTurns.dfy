/** Nobody is passed over: the tasks in front of a process are decided in the order they stand
    in, and there are never more than n of them. */
module ReviewTurns {
  import opened Sums
  import opened TokenPassing
  import opened SharedMemoryReview
  import opened SharedMemoryProof
  import opened ReviewRuns
  import opened Sequences
  import Mq = MessageQueueReview
  import MqProof = MessageQueueProof

  /** The decisions process h takes. */
  function By(ds: seq<Decision>, h: nat): seq<Decision> {
    if ds == [] then [] else (if ds[0].judge == h then [ds[0]] else []) + By(ds[1..], h)
  }

  lemma {:induction false} ByAppend(ds: seq<Decision>, es: seq<Decision>, h: nat)
    ensures By(ds + es, h) == By(ds, h) + By(es, h)
  {
    if ds == [] {
      assert ds + es == es;
    } else {
      assert (ds + es)[1..] == ds[1..] + es;
      ByAppend(ds[1..], es, h);
      Associative(if ds[0].judge == h then [ds[0]] else [], By(ds[1..], h), By(es, h));
    }
  }

  lemma ByOne(d: Decision, h: nat)
    ensures By([d], h) == if d.judge == h then [d] else []
  {
    assert [d][1..] == [];
  }

  /** The task is the i-th in front of h, counting the one in hand and then the queue. */
  predicate InLine(s: State, h: nat, i: nat, task: int)
    requires h < |s.pcs| && h < |s.queues|
  {
    if Holds(s.pcs[h]) then
      if i == 0 then s.pcs[h].task == task else i - 1 < |s.queues[h]| && s.queues[h][i - 1] == task
    else i < |s.queues[h]| && s.queues[h][i] == task
  }

  /** A step that is no decision of h leaves the line as it is. */
  lemma LineKept(n: nat, capacity: nat, s: State, e: Mq.Event, t: State, h: nat, i: nat, task: int)
    requires WellFormed(n, s) && Step(n, capacity, s, e) == Some(t)
    requires h < n && InLine(s, h, i, task)
    requires e.me != h || !s.pcs[h].Deciding?
    ensures InLine(t, h, i, task)
  {
  }

  /** A decision of h takes the first out of the line. */
  lemma LineShortened(n: nat, capacity: nat, s: State, e: Mq.Event, t: State, h: nat, i: nat, task: int)
    requires WellFormed(n, s) && Step(n, capacity, s, e) == Some(t)
    requires h < n && InLine(s, h, i, task)
    requires e.me == h && s.pcs[h].Deciding?
    ensures i == 0 ==> s.pcs[h].task == task
    ensures i > 0 ==> InLine(t, h, i - 1, task)
  {
  }

  lemma LineAfter(n: nat, capacity: nat, s: State, a: seq<Work>, e: Mq.Event, t: State, h: nat, i: nat, task: int)
    requires n <= capacity && Refines(n, s, a) && Step(n, capacity, s, e) == Some(t)
    requires h < n && InLine(s, h, i, task)
    ensures var now := By(Decided(n, s, e), h);
      || (now == [] && InLine(t, h, i, task))
      || (|now| == 1 && if i == 0 then now[0].owner == OwnerOf(n, h, task) else InLine(t, h, i - 1, task))
  {
    if s.pcs[e.me].Deciding? {
      HeldTask(n, s, a, e.me);
      ByOne(Decision(OwnerOf(n, e.me, s.pcs[e.me].task), e.me, e.choice), h);
    }
    if e.me == h && s.pcs[h].Deciding? {
      LineShortened(n, capacity, s, e, t, h, i, task);
    } else {
      LineKept(n, capacity, s, e, t, h, i, task);
    }
  }

  /** The i-th task in front of h is what h's i-th decision from now on is about, whatever
      the others do and whatever is added meanwhile. */
  lemma {:induction false} DecidedInTurn(n: nat, capacity: nat, s: State, a: seq<Work>, schedule: seq<Mq.Event>,
                                         h: nat, i: nat, task: int)
    requires n <= capacity && Refines(n, s, a) && Run(n, capacity, s, schedule).Some?
    requires h < n && InLine(s, h, i, task)
    requires i < |By(Decisions(n, capacity, s, schedule), h)|
    ensures By(Decisions(n, capacity, s, schedule), h)[i].owner == OwnerOf(n, h, task)
    decreases |schedule|
  {
    var e := schedule[0];
    var t := Step(n, capacity, s, e).value;
    var now, later := Decided(n, s, e), Decisions(n, capacity, t, schedule[1..]);
    LineAfter(n, capacity, s, a, e, t, h, i, task);
    StepRefines(n, capacity, s, a, e);
    ByAppend(now, later, h);
    var b := Play(a, now).value;
    if By(now, h) == [] {
      DecidedInTurn(n, capacity, t, b, schedule[1..], h, i, task);
    } else if i > 0 {
      DecidedInTurn(n, capacity, t, b, schedule[1..], h, i - 1, task);
    }
  }

  /** No line is longer than n. */
  lemma LineIsShort(n: nat, s: State, a: seq<Work>, h: nat)
    requires Refines(n, s, a) && h < n
    ensures |s.queues[h]| + (if Holds(s.pcs[h]) then 1 else 0) <= n
  {
    MqProof.HeldAndQueuedBound(n, WithoutLock(s), a, h, h);
    assert WithoutLock(s).pcs[h] == PcWithoutLock(s.pcs[h]);
  }

  /** Every task in front of h is decided within h's next n decisions, in every run. */
  lemma NobodyIsPassedOver(n: nat, capacity: nat, before: seq<Mq.Event>, s: State, schedule: seq<Mq.Event>,
                           h: nat, i: nat, task: int)
    requires n <= capacity && h < n
    requires Run(n, capacity, SharedMemoryReview.Start(n), before) == Some(s)
    requires InLine(s, h, i, task)
    requires Run(n, capacity, s, schedule).Some?
    requires |By(Decisions(n, capacity, s, schedule), h)| >= n
    ensures i < n && By(Decisions(n, capacity, s, schedule), h)[i].owner == OwnerOf(n, h, task)
  {
    var a := ProgramRefinesProtocol(n, capacity, before);
    LineIsShort(n, s, a, h);
    DecidedInTurn(n, capacity, s, a, schedule, h, i, task);
  }

  // --- No run without decisions ----------------------------------------------------------------

  /** Steps of its own that separate a process from its next decision. */
  function Ahead(pc: Pc): nat {
    match pc
    case Deciding(_) => 0
    case GetUnlock(_) => 1
    case Getting => 2
    case GetLock => 3
    case Waiting => 4
    case Posting(_) => 5
    case AddUnlock(_) => 6
    case Adding(_, _) => 7
    case AddLock(_, _) => 8
  }

  function AllAhead(pcs: seq<Pc>): (u: seq<nat>)
    ensures |u| == |pcs| && forall i :: 0 <= i < |pcs| ==> u[i] == Ahead(pcs[i])
  {
    seq(|pcs|, i requires 0 <= i < |pcs| => Ahead(pcs[i]))
  }

  lemma AheadMove(pcs: seq<Pc>, me: nat, pc: Pc)
    requires me < |pcs|
    ensures Total(AllAhead(pcs[me := pc])) + Ahead(pcs[me]) == Total(AllAhead(pcs)) + Ahead(pc)
  {
    assert AllAhead(pcs[me := pc]) == AllAhead(pcs)[me := Ahead(pc)];
    TotalUpdate(AllAhead(pcs), me, Ahead(pc));
  }

  lemma StepAhead(n: nat, capacity: nat, s: State, a: seq<Work>, e: Mq.Event, t: State)
    requires n <= capacity && Refines(n, s, a) && Step(n, capacity, s, e) == Some(t)
    ensures 1 + Total(AllAhead(t.pcs)) == Total(AllAhead(s.pcs)) + 9 * |Decided(n, s, e)|
  {
    AheadMove(s.pcs, e.me, t.pcs[e.me]);
    assert t.pcs == s.pcs[e.me := t.pcs[e.me]];
    if s.pcs[e.me].Deciding? {
      HeldTask(n, s, a, e.me);
    }
  }

  /** Steps are conserved: nine for every decision, but for those under way at either end. */
  lemma {:induction false} StepsAccounted(n: nat, capacity: nat, s: State, a: seq<Work>, schedule: seq<Mq.Event>)
    requires n <= capacity && Refines(n, s, a) && Run(n, capacity, s, schedule).Some?
    ensures |schedule| + Total(AllAhead(Run(n, capacity, s, schedule).value.pcs))
         == Total(AllAhead(s.pcs)) + 9 * |Decisions(n, capacity, s, schedule)|
    decreases |schedule|
  {
    if schedule != [] {
      var e := schedule[0];
      var t := Step(n, capacity, s, e).value;
      StepAhead(n, capacity, s, a, e, t);
      StepRefines(n, capacity, s, a, e);
      StepsAccounted(n, capacity, t, Play(a, Decided(n, s, e)).value, schedule[1..]);
    }
  }

  lemma {:induction false} TotalOfEquals(u: seq<nat>, m: nat)
    requires forall i :: 0 <= i < |u| ==> u[i] == m
    ensures Total(u) == m * |u|
  {
    if u != [] {
      TotalOfEquals(u[1..], m);
    }
  }

  /** No livelock: in every run of the program, under every schedule, there are decisions in
      proportion to the steps. */
  lemma DecisionsKeepComing(n: nat, capacity: nat, schedule: seq<Mq.Event>)
    requires n <= capacity
    requires Run(n, capacity, SharedMemoryReview.Start(n), schedule).Some?
    ensures |schedule| <= 4 * n + 9 * |Decisions(n, capacity, SharedMemoryReview.Start(n), schedule)|
  {
    var s := SharedMemoryReview.Start(n);
    SharedMemoryProof.StartRefines(n);
    StepsAccounted(n, capacity, s, TokenPassing.Start(n), schedule);
    TotalOfEquals(AllAhead(s.pcs), 4);
  }
}
