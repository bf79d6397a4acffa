/** The variables the hotel's threads share, changed in place. */
module HotelHouse {
  import opened Sums
  import opened Hotel

  /** What a thread's move must do: the step, or nothing where the step is blocked. */
  ghost predicate Moved(before: State, step: Option<State>, ran: bool, after: State) {
    ran == step.Some? && after == if step.Some? then step.value else before
  }

  class House {
    const mutexes: Mutexes
    const arrivals: array<Arrival>
    const stays: array<Stay>
    var day: nat
    var admin: Admin
    var waitersLock: Lock
    var roomLock: Lock
    var rooms: int
    var waiting: seq<nat>
    ghost var arrived: seq<nat>
    ghost var admitted: seq<nat>
    var over: bool

    ghost function View(): State
      reads this, arrivals, stays
    {
      State(day, admin, arrivals[..], stays[..], waitersLock, roomLock, rooms, waiting, arrived, admitted, over)
    }

    constructor (mutexes: Mutexes, n: nat)
      ensures fresh(arrivals) && fresh(stays)
      ensures this.mutexes == mutexes && View() == Start(n)
    {
      this.mutexes := mutexes;
      arrivals := new Arrival[n](c => Away);
      stays := new Stay[n](c => Absent);
      day, admin, rooms := 0, Morning, ROOMS;
      waitersLock, roomLock := Free, Free;
      waiting, arrived, admitted, over := [], [], [], false;
      new;
      assert arrivals[..] == Start(n).arrivals && stays[..] == Start(n).stays;
    }

    /** Client::run */
    method MoveClient(c: nat) returns (ran: bool)
      requires c < arrivals.Length
      modifies this, arrivals
      ensures Moved(old(View()), ClientStep(mutexes, old(View()), c), ran, View())
    {
      match arrivals[c] {
        case Away =>
          var l := Acquire(mutexes.waiters, waitersLock, Client(c));
          if l.None? {
            return false;
          }
          waitersLock := l.value;
          arrivals[c] := Queueing;
        case Queueing =>
          waiting, arrived := waiting + [c], arrived + [c];
          arrivals[c] := Queued;
        case Queued =>
          waitersLock := Release(waitersLock, Client(c));
          arrivals[c] := Through;
        case Through =>
          return false;
      }
      ran := true;
      assert arrivals[..] == old(arrivals[..])[c := arrivals[c]];
    }

    /** Client_live::run */
    method MoveGuest(c: nat) returns (ran: bool)
      requires c < stays.Length
      modifies this, stays
      ensures Moved(old(View()), GuestStep(mutexes, old(View()), c), ran, View())
    {
      match stays[c] {
        case Staying =>
          var l := Acquire(mutexes.rooms, roomLock, Guest(c));
          if l.None? {
            return false;
          }
          roomLock := l.value;
          stays[c] := Leaving;
        case Leaving => stays[c] := Stay.Counting(rooms);
        case Counting(seen) =>
          rooms := seen + 1;
          stays[c] := Returned;
        case Returned =>
          roomLock := Release(roomLock, Guest(c));
          stays[c] := Gone;
        case _ =>
          return false;
      }
      ran := true;
      assert stays[..] == old(stays[..])[c := stays[c]];
    }

    /** Administration::run */
    method MoveAdministrator() returns (ran: bool)
      modifies this, stays
      ensures Moved(old(View()), AdminStep(mutexes, old(View())), ran, View())
    {
      match admin {
        case Morning => ran := BeginLoop();
        case Relock => ran := BeginLoop();
        case WantRoom(_) => ran := GiveRoom();
        case AtDesk(_) => ran := GiveRoom();
        case Counting(_, _) => ran := GiveRoom();
        case Taken(_) => ran := GiveRoom();
        case Showing(_) => ran := GiveRoom();
        case Evening =>
          day, admin := day + 1, Morning;
          ran := true;
        case Closed => ran := false;
        case _ => ran := Admit();
      }
    }

    /** The lock before the loop's test, at the beginning of the day and after each guest. */
    method BeginLoop() returns (ran: bool)
      requires admin.Morning? || admin.Relock?
      modifies this
      ensures Moved(old(View()), AdminStep(mutexes, old(View())), ran, View())
    {
      if admin.Morning? && day == DAYS {
        admin := Closed;
        return true;
      }
      var l := Acquire(mutexes.waiters, waitersLock, Administrator);
      ran := l.Some?;
      if ran {
        waitersLock, admin := l.value, TestQueue;
      }
    }

    /** The tests, and taking the first client off the queue. */
    method Admit() returns (ran: bool)
      requires admin.TestQueue? || admin.TestRooms? || admin.TestAgain? || admin.Calling? || admin.Called?
      modifies this
      ensures Moved(old(View()), AdminStep(mutexes, old(View())), ran, View())
    {
      match admin {
        case TestQueue => admin := if waiting == [] then Evening else TestRooms;
        case TestRooms => admin := if rooms > 0 then TestAgain else Evening;
        case TestAgain =>
          if waiting == [] {
            waitersLock, admin := Release(waitersLock, Administrator), Evening;
          } else {
            admin := Calling;
          }
        case Calling =>
          if waiting == [] {
            return false;
          }
          var c := waiting[0];
          waiting, admitted := waiting[1..], admitted + [c];
          admin := Called(c);
        case Called(c) =>
          waitersLock, admin := Release(waitersLock, Administrator), WantRoom(c);
      }
      ran := true;
    }

    /** One room less, under the lock of the rooms, and the guest's stay begins. */
    method GiveRoom() returns (ran: bool)
      requires admin.WantRoom? || admin.AtDesk? || admin.Counting? || admin.Taken? || admin.Showing?
      modifies this, stays
      ensures Moved(old(View()), AdminStep(mutexes, old(View())), ran, View())
    {
      match admin {
        case WantRoom(c) =>
          var l := Acquire(mutexes.rooms, roomLock, Administrator);
          if l.None? {
            return false;
          }
          roomLock, admin := l.value, AtDesk(c);
        case AtDesk(c) => admin := Admin.Counting(c, rooms);
        case Counting(c, seen) => rooms, admin := seen - 1, Taken(c);
        case Taken(c) => roomLock, admin := Release(roomLock, Administrator), Showing(c);
        case Showing(c) =>
          if c >= stays.Length {
            return false;
          }
          stays[c] := Staying;
          admin := Relock;
          assert stays[..] == old(stays[..])[c := Staying];
      }
      ran := true;
    }

    /** Main waits for the clients' threads and the administrator's, and returns. */
    method MoveMain() returns (ran: bool)
      modifies this
      ensures Moved(old(View()), MainStep(old(View())), ran, View())
    {
      ran := admin.Closed?;
      var c := 0;
      while ran && c < arrivals.Length
        invariant 0 <= c <= arrivals.Length
        invariant unchanged(this)
        invariant ran ==> admin.Closed? && forall d :: 0 <= d < c ==> arrivals[d].Through?
        invariant !ran ==> !Joined(View())
      {
        ran := arrivals[c].Through?;
        c := c + 1;
      }
      if ran {
        over := true;
      }
    }

    /** One step of one thread; false, and nothing changed, when it cannot move. */
    method Move(w: Who) returns (ran: bool)
      modifies this, arrivals, stays
      ensures Moved(old(View()), Step(mutexes, old(View()), w), ran, View())
    {
      if over {
        return false;
      }
      match w {
        case Main => ran := MoveMain();
        case Administrator => ran := MoveAdministrator();
        case Client(c) =>
          if c >= arrivals.Length {
            return false;
          }
          ran := MoveClient(c);
        case Guest(c) =>
          if c >= stays.Length {
            return false;
          }
          ran := MoveGuest(c);
      }
    }

    /** Lets the scheduler have its way; stops early if it picks a thread that cannot move. */
    method Run(schedule: seq<Who>) returns (ran: bool)
      modifies this, arrivals, stays
      ensures ran <==> Hotel.Run(mutexes, old(View()), schedule).Some?
      ensures ran ==> View() == Hotel.Run(mutexes, old(View()), schedule).value
    {
      var done := 0;
      while done < |schedule|
        invariant 0 <= done <= |schedule|
        invariant Hotel.Run(mutexes, old(View()), schedule) == Hotel.Run(mutexes, View(), schedule[done..])
      {
        ran := Move(schedule[done]);
        if !ran {
          return;
        }
        assert schedule[done..][1..] == schedule[done + 1..];
        done := done + 1;
      }
      ran := true;
    }
  }
}
