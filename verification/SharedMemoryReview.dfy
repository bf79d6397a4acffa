/** The review program over shared memory: the queues are arrays in one shared structure,
    and every get and add is bracketed by a mutex. The queue operations never block here:
    a get on an empty queue answers -1 and an add to a full one is dropped, so that neither
    happens is something to prove. */
module SharedMemoryReview {
  import opened Sums
  import opened TokenPassing
  import Mq = MessageQueueReview

  /** Where a process stands in its loop; the task it holds travels along. */
  datatype Pc =
    | Waiting                          // before sem_wait on its own semaphore
    | GetLock                          // before sem_wait(mutex)
    | Getting                          // inside, before get_task
    | GetUnlock(task: int)             // inside, before sem_post(mutex)
    | Deciding(task: int)              // outside, holds a task
    | AddLock(dest: nat, msg: int)     // before sem_wait(mutex)
    | Adding(dest: nat, msg: int)      // inside, before add_task
    | AddUnlock(target: nat)           // inside, before sem_post(mutex)
    | Posting(target: nat)             // before sem_post on the receiver's semaphore
  {
    predicate Inside() {
      Getting? || GetUnlock? || Adding? || AddUnlock?
    }
  }

  datatype State = State(queues: seq<seq<int>>, sems: seq<nat>, mutex: nat, pcs: seq<Pc>)

  ghost predicate WellFormed(n: nat, s: State) {
    && |s.queues| == |s.sems| == |s.pcs| == n
    && (forall i :: 0 <= i < n ==>
         (s.pcs[i].AddLock? || s.pcs[i].Adding? ==> s.pcs[i].dest < n) &&
         (s.pcs[i].AddUnlock? || s.pcs[i].Posting? ==> s.pcs[i].target < n))
  }

  /** What main leaves behind: one write task and one permit for everybody, mutex free. */
  function Start(n: nat): State {
    State(seq(n, i => [Mq.WRITE_TASK]), seq(n, i => 1), 1, seq(n, i => Waiting))
  }

  function GetTask(q: seq<int>): (int, seq<int>) {
    if q == [] then (-1, q) else (q[0], q[1..])
  }

  function AddTask(capacity: nat, q: seq<int>, task: int): seq<int> {
    if |q| < capacity then q + [task] else q
  }

  /** One step of process e.me; None when its semaphore call blocks. */
  function Step(n: nat, capacity: nat, s: State, e: Mq.Event): Option<State>
    requires WellFormed(n, s)
    ensures Step(n, capacity, s, e).Some? ==> WellFormed(n, Step(n, capacity, s, e).value)
  {
    var me := e.me;
    if me >= n then None else
    match s.pcs[me]
    case Waiting =>
      if s.sems[me] == 0 then None
      else Some(s.(sems := s.sems[me := s.sems[me] - 1], pcs := s.pcs[me := GetLock]))
    case GetLock =>
      if s.mutex == 0 then None
      else Some(s.(mutex := s.mutex - 1, pcs := s.pcs[me := Getting]))
    case Getting =>
      var (task, rest) := GetTask(s.queues[me]);
      Some(s.(queues := s.queues[me := rest], pcs := s.pcs[me := GetUnlock(task)]))
    case GetUnlock(task) =>
      Some(s.(mutex := s.mutex + 1, pcs := s.pcs[me := Deciding(task)]))
    case Deciding(task) =>
      if !Mq.DrawEnds(n, me, task, e.choice) then None
      else (
        match Mq.Outcome(n, me, task, e.choice)
        case None => Some(s.(pcs := s.pcs[me := Waiting]))
        case Some((d, t)) => Some(s.(pcs := s.pcs[me := AddLock(d, t)])))
    case AddLock(d, t) =>
      if s.mutex == 0 then None
      else Some(s.(mutex := s.mutex - 1, pcs := s.pcs[me := Adding(d, t)]))
    case Adding(d, t) =>
      Some(s.(queues := s.queues[d := AddTask(capacity, s.queues[d], t)],
              pcs := s.pcs[me := AddUnlock(d)]))
    case AddUnlock(d) =>
      Some(s.(mutex := s.mutex + 1, pcs := s.pcs[me := Posting(d)]))
    case Posting(d) =>
      Some(s.(sems := s.sems[d := s.sems[d] + 1], pcs := s.pcs[me := Waiting]))
  }

  function Run(n: nat, capacity: nat, s: State, schedule: seq<Mq.Event>): Option<State>
    requires WellFormed(n, s)
    ensures Run(n, capacity, s, schedule).Some? ==> WellFormed(n, Run(n, capacity, s, schedule).value)
    decreases |schedule|
  {
    if schedule == [] then Some(s)
    else match Step(n, capacity, s, schedule[0])
         case None => None
         case Some(t) => Run(n, capacity, t, schedule[1..])
  }

  // --- Seen without the mutex -------------------------------------------------------

  function PcWithoutLock(pc: Pc): Mq.Pc {
    match pc
    case Waiting => Mq.Waiting
    case GetLock => Mq.Receiving
    case Getting => Mq.Receiving
    case GetUnlock(t) => Mq.Deciding(t)
    case Deciding(t) => Mq.Deciding(t)
    case AddLock(d, t) => Mq.Sending(d, t)
    case Adding(d, t) => Mq.Sending(d, t)
    case AddUnlock(d) => Mq.Posting(d)
    case Posting(d) => Mq.Posting(d)
  }

  ghost function PcsWithoutLock(pcs: seq<Pc>): (r: seq<Mq.Pc>)
    ensures |r| == |pcs| && forall i :: 0 <= i < |pcs| ==> r[i] == PcWithoutLock(pcs[i])
  {
    seq(|pcs|, i requires 0 <= i < |pcs| => PcWithoutLock(pcs[i]))
  }

  /** The message-queue state a shared-memory state stands for. */
  ghost function WithoutLock(s: State): Mq.State {
    Mq.State(s.queues, s.sems, PcsWithoutLock(s.pcs))
  }

  // --- Mutual exclusion ----------------------------------------------------------------

  function Insiders(pcs: seq<Pc>): (u: seq<nat>)
    ensures |u| == |pcs|
    ensures forall j :: 0 <= j < |pcs| ==> u[j] == if pcs[j].Inside() then 1 else 0
  {
    seq(|pcs|, j requires 0 <= j < |pcs| => if pcs[j].Inside() then 1 else 0)
  }

  /** The mutex counts the free places in the critical section, of which there is one. */
  ghost predicate MutexAccounted(s: State) {
    s.mutex + Total(Insiders(s.pcs)) == 1
  }

  /** The shared-memory state s is at abstract state a. */
  ghost predicate Refines(n: nat, s: State, a: seq<Work>) {
    && WellFormed(n, s)
    && MutexAccounted(s)
    && Mq.Refines(n, WithoutLock(s), a)
  }
}
