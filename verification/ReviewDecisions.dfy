/** Every draw is possible, and what each one leads to: in both programs, and without reference to how
    the steps are computed. */
module ReviewDecisions {
  import opened Sums
  import opened TokenPassing
  import Mq = MessageQueueReview
  import Shm = SharedMemoryReview

  /** After writing, any reviewer but the author himself can be drawn, and nobody else; he is sent the
      author's number. */
  lemma WriterDraws(n: nat, capacity: nat, s: Shm.State, me: nat, c: Choice)
    requires Shm.WellFormed(n, s) && me < n && s.pcs[me] == Shm.Deciding(-1)
    ensures Shm.Step(n, capacity, s, Mq.Event(me, c))
      == if c.reviewer < n && c.reviewer != me then Some(s.(pcs := s.pcs[me := Shm.AddLock(c.reviewer, me)])) else None
  {
  }

  /** After a review or re-review of author's program both verdicts are possible: he gets a write
      task, or the reviewer gets the program again, to re-review it. */
  lemma ReviewerJudges(n: nat, capacity: nat, s: Shm.State, me: nat, author: nat, c: Choice)
    requires Shm.WellFormed(n, s) && me < n && author < n
    requires s.pcs[me] == Shm.Deciding(author) || s.pcs[me] == Shm.Deciding(author + n)
    ensures Shm.Step(n, capacity, s, Mq.Event(me, c))
      == Some(s.(pcs := s.pcs[me := if c.correct then Shm.AddLock(author, -1) else Shm.AddLock(me, author + n)]))
  {
  }

  /** The same for the message-queue program. */
  lemma WriterDrawsInQueues(n: nat, capacity: nat, s: Mq.State, me: nat, c: Choice)
    requires Mq.WellFormed(n, s) && me < n && s.pcs[me] == Mq.Deciding(-1)
    ensures Mq.Step(n, capacity, s, Mq.Event(me, c))
      == if c.reviewer < n && c.reviewer != me then Some(s.(pcs := s.pcs[me := Mq.Sending(c.reviewer, me)])) else None
  {
  }

  lemma ReviewerJudgesInQueues(n: nat, capacity: nat, s: Mq.State, me: nat, author: nat, c: Choice)
    requires Mq.WellFormed(n, s) && me < n && author < n
    requires s.pcs[me] == Mq.Deciding(author) || s.pcs[me] == Mq.Deciding(author + n)
    ensures Mq.Step(n, capacity, s, Mq.Event(me, c))
      == Some(s.(pcs := s.pcs[me := if c.correct then Mq.Sending(author, -1) else Mq.Sending(me, author + n)]))
  {
  }

  // --- Who has to wait -----------------------------------------------------------------------------------

  /** A process of the shared-memory program can move unless its semaphore or the mutex is down; a draw
      of the author himself is drawn again. */
  lemma BlockedIff(n: nat, capacity: nat, s: Shm.State, e: Mq.Event)
    requires Shm.WellFormed(n, s) && e.me < n
    ensures Shm.Step(n, capacity, s, e).None? <==>
      match s.pcs[e.me]
      case Waiting => s.sems[e.me] == 0
      case GetLock => s.mutex == 0
      case AddLock(_, _) => s.mutex == 0
      case Deciding(task) => task == -1 && (e.choice.reviewer >= n || e.choice.reviewer == e.me)
      case _ => false
  {
  }

  /** One of the message-queue program can unless its semaphore is down, its queue is empty or the
      receiver's is full. */
  lemma BlockedInQueuesIff(n: nat, capacity: nat, s: Mq.State, e: Mq.Event)
    requires Mq.WellFormed(n, s) && e.me < n
    ensures Mq.Step(n, capacity, s, e).None? <==>
      match s.pcs[e.me]
      case Waiting => s.sems[e.me] == 0
      case Receiving => s.queues[e.me] == []
      case Sending(d, _) => |s.queues[d]| >= capacity
      case Deciding(task) => task == -1 && (e.choice.reviewer >= n || e.choice.reviewer == e.me)
      case Posting(_) => false
  {
  }
}
