/** The loop of the message-queue program in place: queues, semaphores and, for every process,
    the place it has reached. */
module MessageQueueOffice {
  import opened Sums
  import opened MessageQueueReview

  class Office {
    const n: nat
    const capacity: nat
    const queues: array<seq<int>>
    const sems: array<nat>
    const pcs: array<Pc>

    ghost predicate Valid()
      reads this, queues, sems, pcs
    {
      queues.Length == n && WellFormed(n, View())
    }

    ghost function View(): State
      reads this, queues, sems, pcs
    {
      State(queues[..], sems[..], pcs[..])
    }

    constructor (n: nat, capacity: nat)
      ensures Valid() && this.n == n && this.capacity == capacity
      ensures fresh(queues) && fresh(sems) && fresh(pcs)
      ensures forall i :: 0 <= i < n ==> queues[i] == [] && sems[i] == 0 && pcs[i] == Waiting
    {
      this.n := n;
      this.capacity := capacity;
      queues := new seq<int>[n](i => []);
      sems := new nat[n](i => 0);
      pcs := new Pc[n](i => Waiting);
    }

    /** The message, unless the call would block. */
    method Receive(p: nat) returns (msg: Option<int>)
      requires Valid() && p < n
      modifies queues
      ensures Valid()
      ensures old(queues[p]) == [] ==> msg.None? && View() == old(View())
      ensures old(queues[p]) != [] ==> msg == Some(old(queues[p])[0])
      ensures old(queues[p]) != [] ==> queues[..] == old(queues[..])[p := old(queues[p])[1..]]
    {
      if queues[p] == [] {
        return None;
      }
      msg := Some(queues[p][0]);
      queues[p] := queues[p][1..];
    }

    /** False when the queue is full and the call would block. */
    method Send(p: nat, msg: int) returns (sent: bool)
      requires Valid() && p < n
      modifies queues
      ensures Valid()
      ensures sent <==> old(|queues[p]|) < capacity
      ensures queues[..] == if sent then old(queues[..])[p := old(queues[p]) + [msg]] else old(queues[..])
    {
      sent := |queues[p]| < capacity;
      if sent {
        queues[p] := queues[p] + [msg];
      }
    }

    /** The initialiser's loop. */
    method Seed()
      requires Valid() && capacity > 0
      requires forall i :: 0 <= i < n ==> queues[i] == [] && sems[i] == 0 && pcs[i] == Waiting
      modifies queues, sems
      ensures Valid() && View() == Start(n)
    {
      for i := 0 to n
        invariant Valid()
        invariant forall p :: 0 <= p < i ==> queues[p] == [WRITE_TASK] && sems[p] == 1
        invariant forall p :: i <= p < n ==> queues[p] == [] && sems[p] == 0
      {
        var sent := Send(i, WRITE_TASK);
        sems[i] := sems[i] + 1;
      }
      assert queues[..] == Start(n).queues && sems[..] == Start(n).sems && pcs[..] == Start(n).pcs;
    }

    /** One step of process e.me; false, and nothing changed, when its call blocks. */
    method Step(e: Event) returns (ran: bool)
      requires Valid()
      modifies queues, sems, pcs
      ensures Valid()
      ensures match MessageQueueReview.Step(n, capacity, old(View()), e)
              case None => !ran && View() == old(View())
              case Some(t) => ran && View() == t
    {
      var me := e.me;
      if me >= n {
        return false;
      }
      ran := true;
      match pcs[me] {
        case Waiting =>
          if sems[me] == 0 {
            return false;
          }
          sems[me] := sems[me] - 1;
          pcs[me] := Receiving;
        case Receiving =>
          var msg := Receive(me);
          if msg.None? {
            return false;
          }
          pcs[me] := Deciding(msg.value);
        case Deciding(task) =>
          if !DrawEnds(n, me, task, e.choice) {
            return false;
          }
          Decide(me, task, e);
        case Sending(d, t) =>
          var sent := Send(d, t);
          if !sent {
            return false;
          }
          pcs[me] := Posting(d);
        case Posting(d) =>
          sems[d] := sems[d] + 1;
          pcs[me] := Waiting;
      }
      assert pcs[..] == old(pcs[..])[me := pcs[me]];
    }

    /** What to send to whom. */
    method Decide(me: nat, task: int, e: Event)
      requires Valid() && me < n && DrawEnds(n, me, task, e.choice)
      modifies pcs
      ensures Valid()
      ensures forall i :: 0 <= i < n && i != me ==> pcs[i] == old(pcs[i])
      ensures pcs[me] == match Outcome(n, me, task, e.choice) case None => Waiting case Some((d, t)) => Sending(d, t)
    {
      if task == WRITE_TASK {
        pcs[me] := Sending(e.choice.reviewer, me);
      } else if 0 <= task < n {
        pcs[me] := if e.choice.correct then Sending(task, WRITE_TASK) else Sending(me, task + n);
      } else if n <= task < 2 * n {
        pcs[me] := if e.choice.correct then Sending(task - n, WRITE_TASK) else Sending(me, task);
      } else {
        pcs[me] := Waiting;
      }
    }

    /** Lets the scheduler have its way; stops early if it picks a process that cannot move. */
    method Run(schedule: seq<Event>) returns (ran: bool)
      requires Valid()
      modifies queues, sems, pcs
      ensures Valid()
      ensures ran <==> MessageQueueReview.Run(n, capacity, old(View()), schedule).Some?
      ensures ran ==> View() == MessageQueueReview.Run(n, capacity, old(View()), schedule).value
    {
      var done := 0;
      while done < |schedule|
        invariant 0 <= done <= |schedule|
        invariant Valid()
        invariant MessageQueueReview.Run(n, capacity, old(View()), schedule)
               == MessageQueueReview.Run(n, capacity, View(), schedule[done..])
      {
        ran := Step(schedule[done]);
        if !ran {
          return;
        }
        assert schedule[done..][1..] == schedule[done + 1..];
        done := done + 1;
      }
      ran := true;
    }
  }
}
