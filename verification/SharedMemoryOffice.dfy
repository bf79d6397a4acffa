/** The shared structure as it lies in memory, and the processes working on it in place. */
module SharedMemoryOffice {
  import opened Sums
  import opened SharedMemoryReview
  import Mq = MessageQueueReview

  /** The first len cells of row p. */
  ghost function Prefix(cells: array2<int>, p: nat, len: nat): (q: seq<int>)
    requires p < cells.Length0 && len <= cells.Length1
    reads cells
    ensures |q| == len && forall k :: 0 <= k < len ==> q[k] == cells[p, k]
  {
    if len == 0 then [] else Prefix(cells, p, len - 1) + [cells[p, len - 1]]
  }

  /** Task arrays of fixed length and the number of cells in use in each. */
  class SharedMemory {
    const n: nat
    const capacity: nat
    const cells: array2<int>
    const used: array<nat>

    ghost predicate Valid()
      reads this, used
    {
      && cells.Length0 == n && cells.Length1 == capacity && used.Length == n
      && forall p :: 0 <= p < n ==> used[p] <= capacity
    }

    ghost function Queue(p: nat): seq<int>
      requires Valid() && p < n
      reads this, used, cells
    {
      Prefix(cells, p, used[p])
    }

    constructor (n: nat, capacity: nat)
      ensures Valid() && fresh(cells) && fresh(used)
      ensures this.n == n && this.capacity == capacity
      ensures forall p :: 0 <= p < n ==> Queue(p) == []
    {
      this.n := n;
      this.capacity := capacity;
      cells := new int[n, capacity]((i, j) => -1);
      used := new nat[n](i => 0);
    }

    /** Appends the task, unless the queue is full or there is no such queue. */
    method AddTask(p: nat, task: int)
      requires Valid()
      modifies cells, used
      ensures Valid()
      ensures p < n ==> Queue(p) == if |old(Queue(p))| < capacity then old(Queue(p)) + [task] else old(Queue(p))
      ensures forall q :: 0 <= q < n && q != p ==> Queue(q) == old(Queue(q))
    {
      if p >= n {
        return;
      }
      if used[p] < capacity {
        cells[p, used[p]] := task;
        used[p] := used[p] + 1;
      }
    }

    /** Takes the first task and moves the others forward; -1 if there is none. */
    method GetTask(p: nat) returns (task: int)
      requires Valid()
      modifies cells, used
      ensures Valid()
      ensures p >= n ==> task == -1
      ensures p < n && old(Queue(p)) == [] ==> task == -1 && Queue(p) == []
      ensures p < n && old(Queue(p)) != [] ==> old(Queue(p)) == [task] + Queue(p)
      ensures forall q :: 0 <= q < n && q != p ==> Queue(q) == old(Queue(q))
    {
      if p >= n || used[p] == 0 {
        return -1;
      }
      task := cells[p, 0];
      for i := 1 to used[p]
        invariant used[..] == old(used[..])
        invariant forall k :: 0 <= k < i - 1 ==> cells[p, k] == old(cells[p, k + 1])
        invariant forall k :: i - 1 <= k < old(used[p]) ==> cells[p, k] == old(cells[p, k])
        invariant forall q, k :: 0 <= q < n && q != p && 0 <= k < capacity ==> cells[q, k] == old(cells[q, k])
      {
        cells[p, i - 1] := cells[p, i];
      }
      used[p] := used[p] - 1;
      assert Queue(p) == old(Queue(p))[1..];
    }
  }

  /** The whole application: the shared structure, the semaphores, and for every process
      the place it has reached. */
  class Office {
    const n: nat
    const capacity: nat
    const memory: SharedMemory
    const sems: array<nat>
    const pcs: array<Pc>
    var mutex: nat

    ghost predicate Valid()
      reads this, memory, memory.used, pcs
    {
      && memory.Valid() && memory.n == n && memory.capacity == capacity
      && sems.Length == n && pcs.Length == n
      && sems != memory.used
      && forall i :: 0 <= i < n ==>
           (pcs[i].AddLock? || pcs[i].Adding? ==> pcs[i].dest < n) &&
           (pcs[i].AddUnlock? || pcs[i].Posting? ==> pcs[i].target < n)
    }

    ghost function Queues(k: nat): (q: seq<seq<int>>)
      requires Valid() && k <= n
      reads this, memory, memory.used, memory.cells, pcs
      ensures |q| == k && forall p :: 0 <= p < k ==> q[p] == memory.Queue(p)
    {
      if k == 0 then [] else Queues(k - 1) + [memory.Queue(k - 1)]
    }

    ghost function View(): (s: State)
      requires Valid()
      reads this, memory, memory.used, memory.cells, sems, pcs
      ensures WellFormed(n, s)
    {
      State(Queues(n), sems[..], mutex, pcs[..])
    }

    constructor (n: nat, capacity: nat)
      ensures Valid() && this.n == n && this.capacity == capacity
      ensures fresh(memory.cells) && fresh(memory.used) && fresh(sems) && fresh(pcs)
      ensures mutex == 1
      ensures forall i :: 0 <= i < n ==> memory.Queue(i) == [] && sems[i] == 0 && pcs[i] == Waiting
    {
      this.n := n;
      this.capacity := capacity;
      memory := new SharedMemory(n, capacity);
      sems := new nat[n](i => 0);
      pcs := new Pc[n](i => Waiting);
      mutex := 1;
    }

    lemma SeededIsStart()
      requires Valid() && mutex == 1
      requires forall p :: 0 <= p < n ==> memory.Queue(p) == [-1] && sems[p] == 1 && pcs[p] == Waiting
      ensures View() == SharedMemoryReview.Start(n)
    {
      assert Queues(n) == SharedMemoryReview.Start(n).queues;
      assert sems[..] == SharedMemoryReview.Start(n).sems;
      assert pcs[..] == SharedMemoryReview.Start(n).pcs;
    }

    /** The seeding in main: everybody gets a write task and a permit. */
    method Seed()
      requires Valid() && mutex == 1 && capacity > 0
      requires forall i :: 0 <= i < n ==> memory.Queue(i) == [] && sems[i] == 0 && pcs[i] == Waiting
      modifies memory.cells, memory.used, sems
      ensures Valid()
      ensures View() == SharedMemoryReview.Start(n)
    {
      for i := 0 to n
        invariant Valid()
        invariant forall p :: 0 <= p < i ==> memory.Queue(p) == [-1] && sems[p] == 1
        invariant forall p :: i <= p < n ==> memory.Queue(p) == [] && sems[p] == 0
      {
        memory.AddTask(i, -1);
        sems[i] := sems[i] + 1;
      }
      SeededIsStart();
    }

    /** One step of process e.me, on the arrays; false when its call blocks. */
    method Step(e: Mq.Event) returns (ran: bool)
      requires Valid()
      modifies this, memory.cells, memory.used, sems, pcs
      ensures Valid()
      ensures match SharedMemoryReview.Step(n, capacity, old(View()), e)
              case None => !ran && View() == old(View())
              case Some(t) => ran && View() == t
    {
      if e.me >= n {
        return false;
      }
      if pcs[e.me].Getting? {
        StepGet(e);
        ran := true;
      } else if pcs[e.me].Adding? {
        StepAdd(e);
        ran := true;
      } else if pcs[e.me].Deciding? {
        ran := StepDecide(e);
      } else if pcs[e.me].Waiting? || pcs[e.me].GetLock? || pcs[e.me].AddLock? {
        ran := StepWait(e.me, e);
      } else {
        StepPost(e.me, e);
        ran := true;
      }
    }

    /** Takes the next task, inside the critical section. */
    method StepGet(e: Mq.Event)
      requires Valid() && e.me < n && pcs[e.me].Getting?
      modifies memory.cells, memory.used, pcs
      ensures Valid()
      ensures Some(View()) == SharedMemoryReview.Step(n, capacity, old(View()), e)
    {
      var me := e.me;
      var task := memory.GetTask(me);
      pcs[me] := GetUnlock(task);
      assert Queues(n) == old(Queues(n))[me := memory.Queue(me)];
      assert pcs[..] == old(pcs[..])[me := pcs[me]];
    }

    /** Adds a task, inside the critical section. */
    method StepAdd(e: Mq.Event)
      requires Valid() && e.me < n && pcs[e.me].Adding?
      modifies memory.cells, memory.used, pcs
      ensures Valid()
      ensures Some(View()) == SharedMemoryReview.Step(n, capacity, old(View()), e)
    {
      var me := e.me;
      var Adding(d, t) := pcs[me];
      memory.AddTask(d, t);
      pcs[me] := AddUnlock(d);
      assert Queues(n) == old(Queues(n))[d := memory.Queue(d)];
      assert pcs[..] == old(pcs[..])[me := pcs[me]];
    }

    /** The holder of a task draws and settles what to send to whom. */
    method StepDecide(e: Mq.Event) returns (ran: bool)
      requires Valid() && e.me < n && pcs[e.me].Deciding?
      modifies pcs
      ensures Valid()
      ensures match SharedMemoryReview.Step(n, capacity, old(View()), e)
              case None => !ran && View() == old(View())
              case Some(t) => ran && View() == t
    {
      var me := e.me;
      var task := pcs[me].task;
      ran := Mq.DrawEnds(n, me, task, e.choice);
      if ran {
        if task == -1 {
          pcs[me] := AddLock(e.choice.reviewer, me);
        } else if 0 <= task < n {
          pcs[me] := if e.choice.correct then AddLock(task, -1) else AddLock(me, task + n);
        } else if n <= task < 2 * n {
          pcs[me] := if e.choice.correct then AddLock(task - n, -1) else AddLock(me, task);
        } else {
          pcs[me] := Waiting;
        }
      }
      assert Queues(n) == old(Queues(n));
      assert pcs[..] == old(pcs[..])[me := pcs[me]];
    }

    /** The waits, which may block. */
    method StepWait(me: nat, ghost e: Mq.Event) returns (ran: bool)
      requires Valid() && me == e.me && me < n
      requires pcs[me].Waiting? || pcs[me].GetLock? || pcs[me].AddLock?
      modifies this, sems, pcs
      ensures Valid()
      ensures match SharedMemoryReview.Step(n, capacity, old(View()), e)
              case None => !ran && View() == old(View())
              case Some(t) => ran && View() == t
    {
      ran := true;
      match pcs[me] {
        case Waiting =>
          if sems[me] == 0 {
            return false;
          }
          sems[me] := sems[me] - 1;
          pcs[me] := GetLock;
        case GetLock =>
          if mutex == 0 {
            return false;
          }
          mutex := mutex - 1;
          pcs[me] := Getting;
        case AddLock(d, t) =>
          if mutex == 0 {
            return false;
          }
          mutex := mutex - 1;
          pcs[me] := Adding(d, t);
      }
      assert Queues(n) == old(Queues(n));
      assert pcs[..] == old(pcs[..])[me := pcs[me]];
    }

    /** The posts. */
    method StepPost(me: nat, ghost e: Mq.Event)
      requires Valid() && me == e.me && me < n
      requires pcs[me].GetUnlock? || pcs[me].AddUnlock? || pcs[me].Posting?
      modifies this, sems, pcs
      ensures Valid()
      ensures Some(View()) == SharedMemoryReview.Step(n, capacity, old(View()), e)
    {
      match pcs[me] {
        case GetUnlock(task) =>
          mutex := mutex + 1;
          pcs[me] := Deciding(task);
        case AddUnlock(d) =>
          mutex := mutex + 1;
          pcs[me] := Posting(d);
        case Posting(d) =>
          sems[d] := sems[d] + 1;
          pcs[me] := Waiting;
      }
      assert Queues(n) == old(Queues(n));
      assert pcs[..] == old(pcs[..])[me := pcs[me]];
    }

    /** Lets the scheduler have its way; stops early if it picks a process that cannot move. */
    method Run(schedule: seq<Mq.Event>) returns (ran: bool)
      requires Valid()
      modifies this, memory.cells, memory.used, sems, pcs
      ensures Valid()
      ensures ran <==> SharedMemoryReview.Run(n, capacity, old(View()), schedule).Some?
      ensures ran ==> View() == SharedMemoryReview.Run(n, capacity, old(View()), schedule).value
    {
      var done := 0;
      while done < |schedule|
        invariant 0 <= done <= |schedule|
        invariant Valid()
        invariant SharedMemoryReview.Run(n, capacity, old(View()), schedule)
               == SharedMemoryReview.Run(n, capacity, View(), schedule[done..])
      {
        ran := Step(schedule[done]);
        if !ran {
          return;
        }
        assert schedule[done..][1..] == schedule[done + 1..];
        done := done + 1;
      }
      ran := true;
    }
  }

  // --- First in, first out -----------------------------------------------------------------

  datatype Operation = Add(task: int) | Get

  /** What the gets among the operations return, in order. */
  function Served(capacity: nat, q: seq<int>, ops: seq<Operation>): seq<int>
    decreases |ops|
  {
    if ops == [] then []
    else match ops[0]
         case Add(t) => Served(capacity, SharedMemoryReview.AddTask(capacity, q, t), ops[1..])
         case Get =>
           var (task, rest) := SharedMemoryReview.GetTask(q);
           [task] + Served(capacity, rest, ops[1..])
  }

  /** The task at position k is what the (k+1)-th later get returns, whatever is added in
      between. */
  lemma {:induction false} ServedInOrder(capacity: nat, q: seq<int>, ops: seq<Operation>, k: nat)
    requires k < |q| && k < |Served(capacity, q, ops)|
    ensures Served(capacity, q, ops)[k] == q[k]
    decreases |ops|
  {
    match ops[0]
    case Add(t) => ServedInOrder(capacity, SharedMemoryReview.AddTask(capacity, q, t), ops[1..], k);
    case Get =>
      if k > 0 {
        ServedInOrder(capacity, q[1..], ops[1..], k - 1);
      }
  }
}
