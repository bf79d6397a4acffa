/** From every state the message-queue program can reach, every programmer's program can still be
    accepted. The state is taken for one of the shared-memory program with the mutex free, and
    the schedule found there leads to the same end here. */
module MessageQueueProgress {
  import opened Sums
  import opened TokenPassing
  import opened MessageQueueReview
  import MessageQueueProof
  import ReviewProgress
  import Shm = SharedMemoryReview
  import ShmProof = SharedMemoryProof

  function PcWithLock(pc: Pc): Shm.Pc {
    match pc
    case Waiting => Shm.Waiting
    case Receiving => Shm.GetLock
    case Deciding(t) => Shm.Deciding(t)
    case Sending(d, t) => Shm.AddLock(d, t)
    case Posting(d) => Shm.Posting(d)
  }

  /** The shared-memory state with these queues and semaphores, and nobody inside. */
  function WithLock(s: State): Shm.State {
    Shm.State(s.queues, s.sems, 1, seq(|s.pcs|, i requires 0 <= i < |s.pcs| => PcWithLock(s.pcs[i])))
  }

  lemma LockComesOff(s: State)
    ensures Shm.WithoutLock(WithLock(s)) == s
  {
    assert Shm.PcsWithoutLock(WithLock(s).pcs) == s.pcs;
  }

  lemma WithLockRefines(n: nat, s: State, a: seq<Work>)
    requires Refines(n, s, a)
    ensures Shm.Refines(n, WithLock(s), a)
  {
    LockComesOff(s);
    TotalZero(Shm.Insiders(WithLock(s).pcs));
  }

  /** The goals of the shared-memory program, with what is about to be sent in place of what is about
      to be added. */
  ghost predicate Reached(n: nat, s: State, p: nat, goal: ReviewProgress.Goal)
    requires WellFormed(n, s)
  {
    match goal
    case Accepted => exists r :: 0 <= r < n && r != p && s.pcs[r] == Sending(p, -1)
    case Sent(q) => p < n && s.pcs[p] == Sending(q, p)
    case Rejected(q) => q < n && s.pcs[q] == Sending(q, p + n)
  }

  lemma ReachedWithoutLock(n: nat, s: Shm.State, p: nat, goal: ReviewProgress.Goal)
    requires Shm.WellFormed(n, s) && WellFormed(n, Shm.WithoutLock(s))
    requires ReviewProgress.Reached(n, s, p, goal)
    ensures Reached(n, Shm.WithoutLock(s), p, goal)
  {
    var m := Shm.WithoutLock(s);
    assert forall i :: 0 <= i < n ==> m.pcs[i] == Shm.PcWithoutLock(s.pcs[i]);
  }

  /** From any state that refines the protocol, some schedule brings the goal about. */
  lemma CanReach(n: nat, capacity: nat, s: State, a: seq<Work>, p: nat, goal: ReviewProgress.Goal)
    returns (schedule: seq<Event>, t: State)
    requires 2 <= n <= capacity && Refines(n, s, a) && p < n && ReviewProgress.Meant(n, p, goal)
    ensures Run(n, capacity, s, schedule) == Some(t) && WellFormed(n, t) && Reached(n, t, p, goal)
  {
    WithLockRefines(n, s, a);
    LockComesOff(s);
    var locked := ReviewProgress.CanReach(n, capacity, WithLock(s), a, p, goal);
    ShmProof.RunSimulates(n, capacity, WithLock(s), a, locked);
    schedule := ShmProof.VisibleSchedule(n, capacity, WithLock(s), locked);
    var u := Shm.Run(n, capacity, WithLock(s), locked).value;
    t := Shm.WithoutLock(u);
    ReachedWithoutLock(n, u, p, goal);
  }

  /** No reachable state shuts any programmer out: somebody else can still accept his program. */
  lemma NobodyIsLockedOut(n: nat, capacity: nat, before: seq<Event>, s: State, p: nat)
    returns (schedule: seq<Event>, t: State, r: nat)
    requires 2 <= n <= capacity && p < n
    requires Run(n, capacity, MessageQueueReview.Start(n), before) == Some(s)
    ensures Run(n, capacity, s, schedule) == Some(t)
    ensures WellFormed(n, t) && r < n && r != p && t.pcs[r] == Sending(p, -1)
  {
    var a := MessageQueueProof.ProgramRefinesProtocol(n, capacity, before);
    schedule, t := CanReach(n, capacity, s, a, p, ReviewProgress.Accepted);
    r :| 0 <= r < n && r != p && t.pcs[r] == Sending(p, -1);
  }

  /** Nor does it settle who reviews: p can still send his program to any q but himself. */
  lemma AnyReviewerIsPossible(n: nat, capacity: nat, before: seq<Event>, s: State, p: nat, q: nat)
    returns (schedule: seq<Event>, t: State)
    requires 2 <= n <= capacity && p < n && q < n && q != p
    requires Run(n, capacity, MessageQueueReview.Start(n), before) == Some(s)
    ensures Run(n, capacity, s, schedule) == Some(t)
    ensures WellFormed(n, t) && t.pcs[p] == Sending(q, p)
  {
    var a := MessageQueueProof.ProgramRefinesProtocol(n, capacity, before);
    schedule, t := CanReach(n, capacity, s, a, p, ReviewProgress.Sent(q));
  }

  /** Nor how he judges: any q but p can still reject the program of p. */
  lemma AnyRejectionIsPossible(n: nat, capacity: nat, before: seq<Event>, s: State, p: nat, q: nat)
    returns (schedule: seq<Event>, t: State)
    requires 2 <= n <= capacity && p < n && q < n && q != p
    requires Run(n, capacity, MessageQueueReview.Start(n), before) == Some(s)
    ensures Run(n, capacity, s, schedule) == Some(t)
    ensures WellFormed(n, t) && t.pcs[q] == Sending(q, p + n)
  {
    var a := MessageQueueProof.ProgramRefinesProtocol(n, capacity, before);
    schedule, t := CanReach(n, capacity, s, a, p, ReviewProgress.Rejected(q));
  }
}
