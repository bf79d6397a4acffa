/** What the refinement gives for whole runs of the shared-memory program. */
module ReviewRuns {
  import opened Sums
  import opened TokenPassing
  import opened SharedMemoryReview
  import opened SharedMemoryProof
  import Mq = MessageQueueReview
  import MqProof = MessageQueueProof

  function OwnerOf(n: nat, at: nat, task: int): int {
    MqProof.OwnerOf(n, at, task)
  }

  predicate Holds(pc: Pc) { pc.GetUnlock? || pc.Deciding? }

  predicate Carries(pc: Pc) { pc.AddLock? || pc.Adding? }

  /** p has one task in the whole system, and it is the one w describes. */
  ghost predicate OwnsExactly(n: nat, s: State, p: nat, w: Work)
    requires Mq.WellFormed(n, WithoutLock(s))
  {
    forall v :: Mq.Amount(n, WithoutLock(s), Token(p, v)) == if v == w then 1 else 0
  }

  ghost predicate OwnsOne(n: nat, s: State, p: nat)
    requires Mq.WellFormed(n, WithoutLock(s))
  {
    exists w :: OwnsExactly(n, s, p, w)
  }

  lemma OneTaskEach(n: nat, s: State, a: seq<Work>, p: nat)
    requires Refines(n, s, a) && p < n
    ensures OwnsOne(n, s, p)
  {
    forall v ensures Mq.Amount(n, WithoutLock(s), Token(p, v)) == if v == a[p] then 1 else 0 {
      assert Mq.Amount(n, WithoutLock(s), Token(p, v)) == Share(a, Token(p, v));
    }
    assert OwnsExactly(n, s, p, a[p]);
  }

  /** No process holds its own program for review. */
  predicate NotHisOwn(n: nat, me: nat, pc: Pc) {
    Holds(pc) ==> pc.task == -1 || (0 <= pc.task < 2 * n && OwnerOf(n, me, pc.task) != me)
  }

  /** What must never fail: one task per programmer, no queue beyond n, one process inside
      at a time, no get on an empty queue, no own program to review. */
  ghost predicate Safe(n: nat, s: State) {
    && WellFormed(n, s)
    && Mq.WellFormed(n, WithoutLock(s))
    && (forall p :: 0 <= p < n ==> OwnsOne(n, s, p))
    && (forall i :: 0 <= i < n ==> |s.queues[i]| <= n)
    && (forall i, j :: 0 <= i < n && 0 <= j < n && s.pcs[i].Inside() && s.pcs[j].Inside() ==> i == j)
    && (forall i :: 0 <= i < n && s.pcs[i].Getting? ==> s.queues[i] != [])
    && (forall i :: 0 <= i < n ==> NotHisOwn(n, i, s.pcs[i]))
  }

  lemma RefiningIsSafe(n: nat, s: State, a: seq<Work>)
    requires Refines(n, s, a)
    ensures Safe(n, s)
  {
    forall p | 0 <= p < n ensures OwnsOne(n, s, p) {
      OneTaskEach(n, s, a, p);
    }
    forall i, j | 0 <= i < n && 0 <= j < n && s.pcs[i].Inside() && s.pcs[j].Inside() ensures i == j {
      MutualExclusion(n, s, i, j);
    }
    forall i | 0 <= i < n
      ensures |s.queues[i]| <= n
      ensures s.pcs[i].Getting? ==> s.queues[i] != []
      ensures NotHisOwn(n, i, s.pcs[i])
    {
      MqProof.QueueBound(n, WithoutLock(s), a, i);
      QueuesAreReady(n, s, a, i);
      if Holds(s.pcs[i]) {
        HeldTask(n, s, a, i);
      }
    }
  }

  /** Every state the program can reach, under every schedule, is safe and not a deadlock. */
  lemma EveryReachableState(n: nat, capacity: nat, schedule: seq<Mq.Event>, s: State) returns (me: nat)
    requires 2 <= n <= capacity
    requires Run(n, capacity, SharedMemoryReview.Start(n), schedule) == Some(s)
    ensures Safe(n, s)
    ensures me < n && Enabled(n, capacity, s, me)
  {
    var a := ProgramRefinesProtocol(n, capacity, schedule);
    RefiningIsSafe(n, s, a);
    me := NeverDeadlocked(n, capacity, s, a);
  }

  lemma HeldTask(n: nat, s: State, a: seq<Work>, me: nat)
    requires Refines(n, s, a) && me < n && Holds(s.pcs[me])
    ensures var task := s.pcs[me].task;
      && -1 <= task < 2 * n
      && (task == -1 ==> a[me] == Writing)
      && (0 <= task < n ==> task != me && a[task] == Review(me))
      && (n <= task ==> task - n != me && a[task - n] == ReReview(me))
  {
    assert WithoutLock(s).pcs[me] == PcWithoutLock(s.pcs[me]);
    MqProof.HeldTask(n, WithoutLock(s), a, me, s.pcs[me].task);
  }

  lemma CarriedTask(n: nat, s: State, a: seq<Work>, me: nat)
    requires Refines(n, s, a) && me < n && Carries(s.pcs[me])
    ensures var d, task := s.pcs[me].dest, s.pcs[me].msg;
      && -1 <= task < 2 * n
      && (task == -1 ==> a[d] == Writing)
      && (0 <= task < n ==> task != d && a[task] == Review(d))
      && (n <= task ==> task - n != d && a[task - n] == ReReview(d))
  {
    var d, task := s.pcs[me].dest, s.pcs[me].msg;
    assert WithoutLock(s).pcs[me] == PcWithoutLock(s.pcs[me]);
    MqProof.SentTask(n, WithoutLock(s), a, me, d, task);
  }

  // --- Review discipline ------------------------------------------------------------------

  /** Every task about p, wherever it is, is a re-review meant for r. */
  ghost predicate StaysWith(n: nat, s: State, p: nat, r: nat)
    requires WellFormed(n, s)
  {
    && (forall i, k :: 0 <= i < n && 0 <= k < |s.queues[i]| && OwnerOf(n, i, s.queues[i][k]) == p
         ==> i == r && s.queues[i][k] == p + n)
    && (forall i :: 0 <= i < n && Holds(s.pcs[i]) && OwnerOf(n, i, s.pcs[i].task) == p
         ==> i == r && s.pcs[i].task == p + n)
    && (forall i :: 0 <= i < n && Carries(s.pcs[i]) && OwnerOf(n, s.pcs[i].dest, s.pcs[i].msg) == p
         ==> s.pcs[i].dest == r && s.pcs[i].msg == p + n)
  }

  lemma ReReviewStaysWith(n: nat, s: State, a: seq<Work>, p: nat, r: nat)
    requires Refines(n, s, a) && p < n && a[p] == ReReview(r)
    ensures StaysWith(n, s, p, r)
  {
    forall i, k | 0 <= i < n && 0 <= k < |s.queues[i]| && OwnerOf(n, i, s.queues[i][k]) == p
      ensures i == r && s.queues[i][k] == p + n
    {
      MqProof.QueuedTask(n, WithoutLock(s), a, i, k);
    }
    forall i | 0 <= i < n && Holds(s.pcs[i]) && OwnerOf(n, i, s.pcs[i].task) == p
      ensures i == r && s.pcs[i].task == p + n
    {
      HeldTask(n, s, a, i);
    }
    forall i | 0 <= i < n && Carries(s.pcs[i]) && OwnerOf(n, s.pcs[i].dest, s.pcs[i].msg) == p
      ensures s.pcs[i].dest == r && s.pcs[i].msg == p + n
    {
      CarriedTask(n, s, a, i);
    }
  }

  lemma RejecterKeepsIt(n: nat, s: State, a: seq<Work>, p: nat, r: nat)
    requires Refines(n, s, a) && p < n && r < n && s.pcs[r] == AddLock(r, p + n)
    ensures a[p] == ReReview(r)
  {
    CarriedTask(n, s, a, r);
  }

  lemma RejectedStays(n: nat, capacity: nat, s: State, a: seq<Work>, after: seq<Mq.Event>, t: State, p: nat, r: nat)
    requires n <= capacity && p < n && Refines(n, s, a) && a[p] == ReReview(r)
    requires Run(n, capacity, s, after) == Some(t)
    requires forall d :: d in Decisions(n, capacity, s, after) ==> !Accepts(d, p)
    ensures WellFormed(n, t) && StaysWith(n, t, p, r)
    ensures forall d :: d in Decisions(n, capacity, s, after) && d.owner == p ==> d.judge == r
  {
    RunRefines(n, capacity, s, a, after);
    var ds := Decisions(n, capacity, s, after);
    RejectionSticks(a, ds, p, r);
    ReReviewStaysWith(n, t, Play(a, ds).value, p, r);
  }

  /** Once r has rejected the program of p, and until somebody accepts it, every task about
      p is a re-review by r, and all decisions about p are taken by r. */
  lemma RejectedProgramStaysWithItsReviewer(n: nat, capacity: nat, before: seq<Mq.Event>, s: State,
                                            after: seq<Mq.Event>, t: State, p: nat, r: nat)
    requires n <= capacity && p < n && r < n
    requires Run(n, capacity, SharedMemoryReview.Start(n), before) == Some(s)
    requires s.pcs[r] == AddLock(r, p + n)
    requires Run(n, capacity, s, after) == Some(t)
    requires forall d :: d in Decisions(n, capacity, s, after) ==> !Accepts(d, p)
    ensures StaysWith(n, t, p, r)
    ensures forall d :: d in Decisions(n, capacity, s, after) && d.owner == p ==> d.judge == r
  {
    var a := ProgramRefinesProtocol(n, capacity, before);
    RejecterKeepsIt(n, s, a, p, r);
    RejectedStays(n, capacity, s, a, after, t, p, r);
  }
}
