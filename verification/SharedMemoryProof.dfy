/** The shared-memory program refines the message-queue program, and through it the
    token-passing protocol: the mutex only adds waiting, -1 always is a genuine write task
    and no task is ever dropped. */
module SharedMemoryProof {
  import opened Sums
  import opened TokenPassing
  import opened SharedMemoryReview
  import Mq = MessageQueueReview
  import MqProof = MessageQueueProof

  lemma InsidersMove(pcs: seq<Pc>, me: nat, pc: Pc)
    requires me < |pcs|
    ensures Total(Insiders(pcs[me := pc])) + (if pcs[me].Inside() then 1 else 0)
         == Total(Insiders(pcs)) + (if pc.Inside() then 1 else 0)
    ensures pcs[me].Inside() ==> Total(Insiders(pcs)) >= 1
  {
    var x: nat := if pc.Inside() then 1 else 0;
    assert Insiders(pcs[me := pc]) == Insiders(pcs)[me := x];
    TotalUpdate(Insiders(pcs), me, x);
  }

  lemma StepKeepsMutex(n: nat, capacity: nat, s: State, e: Mq.Event, t: State)
    requires WellFormed(n, s) && MutexAccounted(s) && Step(n, capacity, s, e) == Some(t)
    ensures MutexAccounted(t)
  {
    InsidersMove(s.pcs, e.me, t.pcs[e.me]);
    assert t.pcs == s.pcs[e.me := t.pcs[e.me]];
  }

  /** At most one process is between a lock and an unlock. */
  lemma MutualExclusion(n: nat, s: State, i: nat, j: nat)
    requires WellFormed(n, s) && MutexAccounted(s)
    requires i < n && j < n && s.pcs[i].Inside() && s.pcs[j].Inside()
    ensures i == j
  {
    if i != j {
      InsidersMove(s.pcs, i, Waiting);
      InsidersMove(s.pcs[i := Waiting], j, Waiting);
    }
  }

  /** get_task never runs on an empty queue, so a -1 it returns was put there. */
  lemma GetIsNeverSpurious(n: nat, s: State, a: seq<Work>, me: nat)
    requires Refines(n, s, a) && me < n && s.pcs[me].Getting?
    ensures s.queues[me] != []
    ensures s.queues[me][0] == -1 ==> a[me] == Writing
  {
    MqProof.CallsNeverBlock(n, WithoutLock(s), a, me);
    MqProof.QueuedTask(n, WithoutLock(s), a, me, 0);
  }

  /** add_task never meets a full queue, so no task is ever dropped. */
  lemma AddIsNeverDropped(n: nat, capacity: nat, s: State, a: seq<Work>, me: nat)
    requires n <= capacity && Refines(n, s, a) && me < n && s.pcs[me].Adding?
    ensures var Adding(d, t) := s.pcs[me]; AddTask(capacity, s.queues[d], t) == s.queues[d] + [t]
  {
    MqProof.CallsNeverBlock(n, WithoutLock(s), a, me);
  }

  /** The steps the message-queue program makes too. */
  predicate Visible(pc: Pc) {
    !pc.GetLock? && !pc.GetUnlock? && !pc.AddLock? && !pc.AddUnlock?
  }

  lemma StepSimulatesHere(n: nat, capacity: nat, s: State, e: Mq.Event, t: State)
    requires WellFormed(n, s) && Step(n, capacity, s, e) == Some(t)
    requires s.pcs[e.me].Getting? ==> s.queues[e.me] != []
    requires s.pcs[e.me].Adding? ==> |s.queues[s.pcs[e.me].dest]| < capacity
    ensures Mq.WellFormed(n, WithoutLock(s))
    ensures Visible(s.pcs[e.me]) ==> Mq.Step(n, capacity, WithoutLock(s), e) == Some(WithoutLock(t))
    ensures !Visible(s.pcs[e.me]) ==> WithoutLock(t) == WithoutLock(s)
  {
    var me := e.me;
    assert PcsWithoutLock(t.pcs) == PcsWithoutLock(s.pcs)[me := PcWithoutLock(t.pcs[me])];
    assert WithoutLock(s).pcs[me] == PcWithoutLock(s.pcs[me]);
  }

  lemma QueuesAreReady(n: nat, s: State, a: seq<Work>, me: nat)
    requires Refines(n, s, a) && me < n
    ensures s.pcs[me].Getting? ==> s.queues[me] != []
    ensures s.pcs[me].Adding? ==> |s.queues[s.pcs[me].dest]| < n
  {
    MqProof.CallsNeverBlock(n, WithoutLock(s), a, me);
    assert WithoutLock(s).pcs[me] == PcWithoutLock(s.pcs[me]);
  }

  /** A step either is the same process's step in the message-queue program, or moves the
      mutex only and is not seen there at all. */
  lemma StepSimulates(n: nat, capacity: nat, s: State, a: seq<Work>, e: Mq.Event, t: State)
    requires n <= capacity && Refines(n, s, a) && Step(n, capacity, s, e) == Some(t)
    ensures Visible(s.pcs[e.me]) ==> Mq.Step(n, capacity, WithoutLock(s), e) == Some(WithoutLock(t))
    ensures !Visible(s.pcs[e.me]) ==> WithoutLock(t) == WithoutLock(s)
  {
    QueuesAreReady(n, s, a, e.me);
    StepSimulatesHere(n, capacity, s, e, t);
  }

  ghost function Decided(n: nat, s: State, e: Mq.Event): seq<Decision>
    requires WellFormed(n, s)
  {
    if e.me < n && s.pcs[e.me].Deciding? then MqProof.DecisionOn(n, e.me, s.pcs[e.me].task, e.choice) else []
  }

  lemma StepRefines(n: nat, capacity: nat, s: State, a: seq<Work>, e: Mq.Event)
    requires n <= capacity && Refines(n, s, a) && Step(n, capacity, s, e).Some?
    ensures Play(a, Decided(n, s, e)).Some?
    ensures Refines(n, Step(n, capacity, s, e).value, Play(a, Decided(n, s, e)).value)
  {
    var t := Step(n, capacity, s, e).value;
    StepKeepsMutex(n, capacity, s, e, t);
    StepSimulates(n, capacity, s, a, e, t);
    if Visible(s.pcs[e.me]) {
      MqProof.StepRefines(n, capacity, WithoutLock(s), a, e);
      assert Decided(n, s, e) == MqProof.Decided(n, WithoutLock(s), e);
    }
  }

  lemma StartRefines(n: nat)
    ensures Refines(n, SharedMemoryReview.Start(n), TokenPassing.Start(n))
  {
    var s := SharedMemoryReview.Start(n);
    MqProof.StartRefines(n);
    TotalZero(Insiders(s.pcs));
    assert WithoutLock(s) == Mq.Start(n);
  }

  ghost function Decisions(n: nat, capacity: nat, s: State, schedule: seq<Mq.Event>): seq<Decision>
    requires WellFormed(n, s)
    decreases |schedule|
  {
    if schedule == [] then []
    else match Step(n, capacity, s, schedule[0])
         case None => []
         case Some(t) => Decided(n, s, schedule[0]) + Decisions(n, capacity, t, schedule[1..])
  }

  lemma {:induction false} RunRefines(n: nat, capacity: nat, s: State, a: seq<Work>, schedule: seq<Mq.Event>)
    requires n <= capacity && Refines(n, s, a) && Run(n, capacity, s, schedule).Some?
    ensures Play(a, Decisions(n, capacity, s, schedule)).Some?
    ensures Refines(n, Run(n, capacity, s, schedule).value, Play(a, Decisions(n, capacity, s, schedule)).value)
    decreases |schedule|
  {
    if schedule != [] {
      StepRefines(n, capacity, s, a, schedule[0]);
      var t := Step(n, capacity, s, schedule[0]).value;
      var now := Decided(n, s, schedule[0]);
      var b := Play(a, now).value;
      RunRefines(n, capacity, t, b, schedule[1..]);
      PlayAppend(a, now, Decisions(n, capacity, t, schedule[1..]));
    }
  }

  /** Over whole runs: whatever the schedule, the shared-memory program plays the protocol. */
  lemma ProgramRefinesProtocol(n: nat, capacity: nat, schedule: seq<Mq.Event>) returns (a: seq<Work>)
    requires n <= capacity
    requires Run(n, capacity, SharedMemoryReview.Start(n), schedule).Some?
    ensures Play(TokenPassing.Start(n), Decisions(n, capacity, SharedMemoryReview.Start(n), schedule)) == Some(a)
    ensures Refines(n, Run(n, capacity, SharedMemoryReview.Start(n), schedule).value, a)
  {
    StartRefines(n);
    RunRefines(n, capacity, SharedMemoryReview.Start(n), TokenPassing.Start(n), schedule);
    a := Play(TokenPassing.Start(n), Decisions(n, capacity, SharedMemoryReview.Start(n), schedule)).value;
  }

  /** The schedule the message-queue program follows when the shared-memory one follows
      the given schedule: the mutex steps are left out. */
  ghost function VisibleSchedule(n: nat, capacity: nat, s: State, schedule: seq<Mq.Event>): seq<Mq.Event>
    requires WellFormed(n, s)
    decreases |schedule|
  {
    if schedule == [] then []
    else match Step(n, capacity, s, schedule[0])
         case None => []
         case Some(t) =>
           (if Visible(s.pcs[schedule[0].me]) then [schedule[0]] else [])
           + VisibleSchedule(n, capacity, t, schedule[1..])
  }

  /** Every run of the shared-memory program is, seen without the mutex, a run of the
      message-queue program. */
  lemma {:induction false} RunSimulates(n: nat, capacity: nat, s: State, a: seq<Work>, schedule: seq<Mq.Event>)
    requires n <= capacity && Refines(n, s, a) && Run(n, capacity, s, schedule).Some?
    ensures Mq.Run(n, capacity, WithoutLock(s), VisibleSchedule(n, capacity, s, schedule))
         == Some(WithoutLock(Run(n, capacity, s, schedule).value))
    decreases |schedule|
  {
    if schedule != [] {
      var e := schedule[0];
      var t := Step(n, capacity, s, e).value;
      StepSimulates(n, capacity, s, a, e, t);
      StepRefines(n, capacity, s, a, e);
      RunSimulates(n, capacity, t, Play(a, Decided(n, s, e)).value, schedule[1..]);
      var rest := VisibleSchedule(n, capacity, t, schedule[1..]);
      assert ([e] + rest)[1..] == rest;
      assert [] + rest == rest;
    }
  }

  ghost predicate Enabled(n: nat, capacity: nat, s: State, me: nat)
    requires WellFormed(n, s)
  {
    exists c :: Step(n, capacity, s, Mq.Event(me, c)).Some?
  }

  lemma InsiderIsEnabled(n: nat, capacity: nat, s: State, me: nat)
    requires WellFormed(n, s) && me < n && s.pcs[me].Inside()
    ensures Enabled(n, capacity, s, me)
  {
    assert Step(n, capacity, s, Mq.Event(me, Choice(0, true))).Some?;
  }

  lemma EnabledWithoutLock(n: nat, capacity: nat, s: State, me: nat)
    requires WellFormed(n, s) && s.mutex > 0 && me < n
    requires Mq.WellFormed(n, WithoutLock(s)) && MqProof.Enabled(n, capacity, WithoutLock(s), me)
    ensures Enabled(n, capacity, s, me)
  {
    var c :| Mq.Step(n, capacity, WithoutLock(s), Mq.Event(me, c)).Some?;
    assert WithoutLock(s).pcs[me] == PcWithoutLock(s.pcs[me]);
    assert Step(n, capacity, s, Mq.Event(me, c)).Some?;
  }

  /** Deadlock freedom: somebody can always move. */
  lemma NeverDeadlocked(n: nat, capacity: nat, s: State, a: seq<Work>) returns (me: nat)
    requires 2 <= n <= capacity && Refines(n, s, a)
    ensures me < n && Enabled(n, capacity, s, me)
  {
    if s.mutex == 0 {
      TotalZero(Insiders(s.pcs));
      me :| 0 <= me < n && s.pcs[me].Inside();
      InsiderIsEnabled(n, capacity, s, me);
    } else {
      me := MqProof.NeverDeadlocked(n, capacity, WithoutLock(s), a);
      EnabledWithoutLock(n, capacity, s, me);
    }
  }
}
