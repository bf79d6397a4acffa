/** What every run of the hotel keeps, for each kind of mutex. */
module HotelProof {
  import opened Sums
  import opened Hotel

  // --- The locks --------------------------------------------------------------------------------

  predicate QueuesUp(a: Arrival) { a.Queueing? || a.Queued? }

  predicate InRoomSection(t: Stay) { t.Leaving? || t.Counting? || t.Returned? }

  /** Between the lock of the waiters and its release, or past a loop that ended without one. */
  predicate AtBenches(a: Admin) {
    match a
    case TestQueue | TestRooms | TestAgain | Calling | Called(_) | Evening => true
    case _ => false
  }

  predicate AtRooms(a: Admin) { a.AtDesk? || a.Counting? || a.Taken? }

  /** How often w has locked the waiters more than unlocked them. The administrator's loop ends
      without an unlock, so that he is one ahead from the first evening on, and with a mutex
      that counts one more every evening. */
  function WaitersDepth(k: Kind, s: State, w: Who): nat {
    if k.Void? then 0
    else
      match w
      case Administrator =>
        if k.Recursive? then s.day + (if AtBenches(s.admin) then 1 else 0)
        else if AtBenches(s.admin) || (s.admin.Morning? && s.day > 0) || s.admin.Closed? then 1
        else 0
      case Client(c) => if c < |s.arrivals| && QueuesUp(s.arrivals[c]) then 1 else 0
      case _ => 0
  }

  function RoomsDepth(k: Kind, s: State, w: Who): nat {
    if k.Void? then 0
    else
      match w
      case Administrator => if AtRooms(s.admin) then 1 else 0
      case Guest(c) => if c < |s.stays| && InRoomSection(s.stays[c]) then 1 else 0
      case _ => 0
  }

  function DepthOf(l: Lock, w: Who): nat {
    if l.Held? && l.owner == w then l.depth else 0
  }

  /** A lock is held by the thread inside, to the depth it has locked it. */
  ghost predicate Locked(m: Mutexes, s: State) {
    && (s.waitersLock.Held? ==> s.waitersLock.depth > 0)
    && (s.roomLock.Held? ==> s.roomLock.depth > 0)
    && (forall w :: WaitersDepth(m.waiters, s, w) == DepthOf(s.waitersLock, w))
    && (forall w :: RoomsDepth(m.rooms, s, w) == DepthOf(s.roomLock, w))
  }

  // --- The order ----------------------------------------------------------------------------------

  function InHand(a: Admin): Option<nat> {
    match a
    case Called(c) => Some(c)
    case WantRoom(c) => Some(c)
    case AtDesk(c) => Some(c)
    case Counting(c, _) => Some(c)
    case Taken(c) => Some(c)
    case Showing(c) => Some(c)
    case _ => None
  }

  predicate Distinct(q: seq<nat>) {
    forall i, j :: 0 <= i < j < |q| ==> q[i] != q[j]
  }

  /** Client c is on the record when he has pushed himself, and his stay has begun when he was
      admitted and is not in the administrator's hand. */
  predicate Placed(s: State, c: nat)
    requires c < |s.arrivals| == |s.stays|
  {
    && (c in s.arrived <==> s.arrivals[c].Queued? || s.arrivals[c].Through?)
    && (s.stays[c] != Absent <==> c in s.admitted && InHand(s.admin) != Some(c))
  }

  ghost predicate Ordered(s: State) {
    && |s.arrivals| == |s.stays|
    && s.arrived == s.admitted + s.waiting
    && Distinct(s.arrived)
    && (forall c :: c in s.arrived ==> c < |s.arrivals|)
    && (forall c :: 0 <= c < |s.arrivals| ==> Placed(s, c))
    && (InHand(s.admin).Some? ==> InHand(s.admin).value in s.admitted)
    && (s.admin in {TestRooms, TestAgain, Calling} ==> s.waiting != [])
    && s.day <= DAYS
    && (s.admin.Closed? ==> s.day == DAYS)
    && (s.day == DAYS ==> s.admin.Morning? || s.admin.Closed?)
    && (s.over ==> Joined(s))
  }

  // --- The rooms ----------------------------------------------------------------------------------

  predicate HasRoom(s: State, c: nat)
    requires c < |s.stays|
  {
    s.stays[c].Staying? || s.stays[c].Leaving? || s.stays[c].Counting? || s.admin == Taken(c) || s.admin == Showing(c)
  }

  function Occupants(s: State): set<nat> {
    set c | 0 <= c < |s.stays| && HasRoom(s, c)
  }

  /** The administrator has seen a free room and not taken it yet. */
  predicate HasSeenRoom(a: Admin) {
    a.TestAgain? || a.Calling? || a.Called? || a.WantRoom? || a.AtDesk? || a.Counting?
  }

  ghost predicate Counted(s: State) {
    && s.rooms >= 0
    && s.rooms + |Occupants(s)| == ROOMS
    && (forall c :: 0 <= c < |s.stays| && s.stays[c].Counting? ==> s.stays[c].seen == s.rooms)
    && (s.admin.Counting? ==> s.admin.seen == s.rooms)
    && (HasSeenRoom(s.admin) ==> s.rooms > 0)
  }

  // --- The benches --------------------------------------------------------------------------------

  /** The administrator has closed a day's loop and not locked the waiters again. */
  predicate Resting(s: State) {
    s.admin.Evening? || s.admin.Closed? || (s.admin.Morning? && s.day > 0)
  }

  /** Whoever is left on the benches saw the house fully given out. */
  predicate LeftOver(s: State) {
    Resting(s) && s.waiting != [] ==> |s.admitted| >= ROOMS
  }

  predicate OneDay(s: State) {
    s.day <= (if s.admin.Morning? then 1 else 0)
  }

  /** What holds for all kinds of mutexes, and what more for some. */
  ghost predicate Inv(m: Mutexes, s: State) {
    && Locked(m, s)
    && Ordered(s)
    && (!m.rooms.Void? ==> Counted(s))
    && (!m.rooms.Void? && !m.waiters.Void? ==> LeftOver(s))
    && (m.waiters.Normal? ==> OneDay(s))
  }

  lemma StartInv(m: Mutexes, n: nat)
    ensures Inv(m, Start(n))
  {
    assert Occupants(Start(n)) == {};
  }

  // --- Exclusion ------------------------------------------------------------------------------------

  /** Pushes and pops never meet: unless the mutex is void, one thread at a time is at the
      benches. */
  lemma OneAtTheBenches(m: Mutexes, s: State, v: Who, w: Who)
    requires Locked(m, s) && WaitersDepth(m.waiters, s, v) > 0 && WaitersDepth(m.waiters, s, w) > 0
    ensures v == w
  {
    assert WaitersDepth(m.waiters, s, v) == DepthOf(s.waitersLock, v);
    assert WaitersDepth(m.waiters, s, w) == DepthOf(s.waitersLock, w);
  }

  lemma OneAtTheRooms(m: Mutexes, s: State, v: Who, w: Who)
    requires Locked(m, s) && RoomsDepth(m.rooms, s, v) > 0 && RoomsDepth(m.rooms, s, w) > 0
    ensures v == w
  {
    assert RoomsDepth(m.rooms, s, v) == DepthOf(s.roomLock, v);
    assert RoomsDepth(m.rooms, s, w) == DepthOf(s.roomLock, w);
  }

  /** The guest in hand was admitted, and his stay has not begun. */
  lemma GuestInHand(s: State)
    requires Ordered(s) && InHand(s.admin).Some?
    ensures var c := InHand(s.admin).value;
      c < |s.stays| && s.stays[c].Absent? && c in s.admitted
  {
    var c := InHand(s.admin).value;
    assert c in s.arrived;
    assert Placed(s, c);
  }

  /** Nothing that says whether v is inside changes from s to t. */
  ghost predicate Untouched(m: Mutexes, s: State, t: State, v: Who) {
    && WaitersDepth(m.waiters, t, v) == WaitersDepth(m.waiters, s, v)
    && RoomsDepth(m.rooms, t, v) == RoomsDepth(m.rooms, s, v)
    && DepthOf(t.waitersLock, v) == DepthOf(s.waitersLock, v)
    && DepthOf(t.roomLock, v) == DepthOf(s.roomLock, v)
  }

  /** A step of a client or guest moves no other thread into or out of a critical section. */
  lemma OthersStay(m: Mutexes, s: State, w: Who, v: Who)
    requires Step(m, s, w).Some? && v != w && !w.Administrator?
    ensures Untouched(m, s, Step(m, s, w).value, v)
  {
  }

  /** Nor does one of the administrator. */
  lemma OthersStayToo(m: Mutexes, s: State, v: Who)
    requires Ordered(s) && AdminStep(m, s).Some? && !v.Administrator?
    ensures Untouched(m, s, AdminStep(m, s).value, v)
  {
    if s.admin.Showing? {
      GuestInHand(s);
    }
  }

  /** The thread w is inside as often as its locks say. */
  ghost predicate LockedFor(m: Mutexes, s: State, w: Who) {
    && WaitersDepth(m.waiters, s, w) == DepthOf(s.waitersLock, w)
    && RoomsDepth(m.rooms, s, w) == DepthOf(s.roomLock, w)
    && (s.waitersLock.Held? ==> s.waitersLock.depth > 0)
    && (s.roomLock.Held? ==> s.roomLock.depth > 0)
  }

  lemma MoverLocked(m: Mutexes, s: State, w: Who)
    requires LockedFor(m, s, w) && Step(m, s, w).Some? && !w.Administrator?
    ensures LockedFor(m, Step(m, s, w).value, w)
  {
  }

  lemma AdminWaitersLocked(m: Mutexes, s: State)
    requires WaitersDepth(m.waiters, s, Administrator) == DepthOf(s.waitersLock, Administrator)
    requires (s.waitersLock.Held? ==> s.waitersLock.depth > 0) && Ordered(s) && AdminStep(m, s).Some?
    requires m.waiters.Normal? ==> OneDay(s)
    ensures var t := AdminStep(m, s).value;
      && WaitersDepth(m.waiters, t, Administrator) == DepthOf(t.waitersLock, Administrator)
      && (t.waitersLock.Held? ==> t.waitersLock.depth > 0)
  {
  }

  lemma AdminRoomsLocked(m: Mutexes, s: State)
    requires RoomsDepth(m.rooms, s, Administrator) == DepthOf(s.roomLock, Administrator)
    requires (s.roomLock.Held? ==> s.roomLock.depth > 0) && AdminStep(m, s).Some?
    ensures var t := AdminStep(m, s).value;
      && RoomsDepth(m.rooms, t, Administrator) == DepthOf(t.roomLock, Administrator)
      && (t.roomLock.Held? ==> t.roomLock.depth > 0)
  {
    var t := AdminStep(m, s).value;
    if !s.admin.WantRoom? && !s.admin.Taken? {
      assert t.roomLock == s.roomLock && AtRooms(t.admin) == AtRooms(s.admin);
    }
  }

  lemma LockedKept(m: Mutexes, s: State, w: Who)
    requires Inv(m, s) && Step(m, s, w).Some?
    ensures Locked(m, Step(m, s, w).value)
  {
    var t := Step(m, s, w).value;
    assert LockedFor(m, s, w);
    if w.Administrator? {
      AdminWaitersLocked(m, s);
      AdminRoomsLocked(m, s);
    } else {
      MoverLocked(m, s, w);
    }
    assert LockedFor(m, t, w);
    forall v
      ensures WaitersDepth(m.waiters, t, v) == DepthOf(t.waitersLock, v)
      ensures RoomsDepth(m.rooms, t, v) == DepthOf(t.roomLock, v)
    {
      if v != w {
        if w.Administrator? {
          OthersStayToo(m, s, v);
        } else {
          OthersStay(m, s, w, v);
        }
        assert LockedFor(m, s, v);
      }
    }
  }

  // --- The order is kept, whatever the mutexes ---------------------------------------------------------

  lemma ClientKeepsOrder(m: Mutexes, s: State, c: nat)
    requires Ordered(s) && !s.over && c < |s.arrivals| && ClientStep(m, s, c).Some?
    ensures Ordered(ClientStep(m, s, c).value)
  {
    var t := ClientStep(m, s, c).value;
    assert Placed(s, c);
    forall d | 0 <= d < |t.arrivals| ensures Placed(t, d) {
      assert Placed(s, d);
    }
  }

  lemma GuestKeepsOrder(m: Mutexes, s: State, c: nat)
    requires Ordered(s) && !s.over && c < |s.stays| && GuestStep(m, s, c).Some?
    ensures Ordered(GuestStep(m, s, c).value)
  {
    var t := GuestStep(m, s, c).value;
    forall d | 0 <= d < |t.arrivals| ensures Placed(t, d) {
      assert Placed(s, d);
    }
  }

  /** The first in the queue has not been admitted before. */
  lemma FirstInQueue(s: State)
    requires Ordered(s) && s.waiting != []
    ensures s.waiting[0] in s.arrived && s.waiting[0] !in s.admitted
  {
    var k := |s.admitted|;
    assert s.arrived[k] == s.waiting[0];
    forall i | 0 <= i < k ensures s.admitted[i] != s.waiting[0] {
      assert s.arrived[i] == s.admitted[i];
    }
  }

  lemma CallKeepsOrder(m: Mutexes, s: State)
    requires Ordered(s) && !s.over && s.admin.Calling?
    ensures AdminStep(m, s).Some? && Ordered(AdminStep(m, s).value)
  {
    var t := AdminStep(m, s).value;
    FirstInQueue(s);
    assert s.admitted + s.waiting == (s.admitted + [s.waiting[0]]) + s.waiting[1..];
    forall d | 0 <= d < |t.arrivals| ensures Placed(t, d) {
      assert Placed(s, d);
    }
  }

  lemma AdminKeepsOrder(m: Mutexes, s: State)
    requires Ordered(s) && !s.over && AdminStep(m, s).Some?
    ensures Ordered(AdminStep(m, s).value)
  {
    if s.admin.Calling? {
      CallKeepsOrder(m, s);
    } else {
      var t := AdminStep(m, s).value;
      forall d | 0 <= d < |t.arrivals| ensures Placed(t, d) {
        assert Placed(s, d);
      }
    }
  }

  lemma MainKeepsOrder(s: State)
    requires Ordered(s) && MainStep(s).Some?
    ensures Ordered(MainStep(s).value)
  {
    var t := MainStep(s).value;
    forall d | 0 <= d < |t.arrivals| ensures Placed(t, d) {
      assert Placed(s, d);
    }
  }

  lemma OrderKept(m: Mutexes, s: State, w: Who)
    requires Ordered(s) && Step(m, s, w).Some?
    ensures Ordered(Step(m, s, w).value)
  {
    match w
    case Main => MainKeepsOrder(s);
    case Administrator => AdminKeepsOrder(m, s);
    case Client(c) => ClientKeepsOrder(m, s, c);
    case Guest(c) => GuestKeepsOrder(m, s, c);
  }

  // --- The count is kept, unless the mutex of the rooms is void ------------------------------------------

  /** A guest gives his room back when he writes the number back. */
  lemma GuestOccupants(m: Mutexes, s: State, c: nat)
    requires Ordered(s) && c < |s.stays| && GuestStep(m, s, c).Some?
    ensures |Occupants(GuestStep(m, s, c).value)| == |Occupants(s)| - if s.stays[c].Counting? then 1 else 0
  {
    var t := GuestStep(m, s, c).value;
    assert Placed(s, c);
    if s.stays[c].Counting? {
      assert c in Occupants(s);
      assert Occupants(t) == Occupants(s) - {c};
    } else {
      assert Occupants(t) == Occupants(s);
    }
  }

  lemma GuestKeepsCount(m: Mutexes, s: State, c: nat)
    requires Inv(m, s) && !m.rooms.Void? && c < |s.stays| && GuestStep(m, s, c).Some?
    ensures Counted(GuestStep(m, s, c).value)
  {
    var t := GuestStep(m, s, c).value;
    GuestOccupants(m, s, c);
    if InRoomSection(s.stays[c]) {
      forall d | 0 <= d < |t.stays| && t.stays[d].Counting? ensures t.stays[d].seen == t.rooms {
        if d != c {
          OneAtTheRooms(m, s, Guest(c), Guest(d));
        }
      }
      if AtRooms(s.admin) {
        OneAtTheRooms(m, s, Guest(c), Administrator);
      }
    }
  }

  lemma WriteOccupies(m: Mutexes, s: State)
    requires Ordered(s) && s.admin.Counting?
    ensures AdminStep(m, s).Some? && |Occupants(AdminStep(m, s).value)| == |Occupants(s)| + 1
  {
    GuestInHand(s);
    assert Occupants(AdminStep(m, s).value) == Occupants(s) + {s.admin.guest};
  }

  lemma SameOccupants(m: Mutexes, s: State, c: nat)
    requires Ordered(s) && !s.admin.Counting? && AdminStep(m, s).Some? && c < |s.stays|
    ensures var t := AdminStep(m, s).value;
      |t.stays| == |s.stays| && HasRoom(t, c) == HasRoom(s, c)
  {
  }

  /** The administrator gives out one room when he writes the number back. */
  lemma AdminOccupants(m: Mutexes, s: State)
    requires Ordered(s) && AdminStep(m, s).Some?
    ensures |Occupants(AdminStep(m, s).value)| == |Occupants(s)| + if s.admin.Counting? then 1 else 0
  {
    if s.admin.Counting? {
      WriteOccupies(m, s);
    } else {
      var t := AdminStep(m, s).value;
      assert |t.stays| == |s.stays|;
      forall c | 0 <= c < |s.stays| ensures HasRoom(t, c) == HasRoom(s, c) {
        SameOccupants(m, s, c);
      }
      assert Occupants(t) == Occupants(s);
    }
  }

  lemma AdminKeepsCount(m: Mutexes, s: State)
    requires Inv(m, s) && !m.rooms.Void? && AdminStep(m, s).Some?
    ensures Counted(AdminStep(m, s).value)
  {
    var t := AdminStep(m, s).value;
    AdminOccupants(m, s);
    forall d | 0 <= d < |t.stays| && t.stays[d].Counting? ensures t.stays[d].seen == t.rooms {
      if AtRooms(s.admin) {
        OneAtTheRooms(m, s, Administrator, Guest(d));
      }
    }
  }

  lemma CountKept(m: Mutexes, s: State, w: Who)
    requires Inv(m, s) && !m.rooms.Void? && Step(m, s, w).Some?
    ensures Counted(Step(m, s, w).value)
  {
    match w
    case Administrator => AdminKeepsCount(m, s);
    case Main => assert Occupants(Step(m, s, w).value) == Occupants(s);
    case Client(c) => assert Occupants(Step(m, s, w).value) == Occupants(s);
    case Guest(c) => GuestKeepsCount(m, s, c);
  }

  // --- Who is left on the benches -------------------------------------------------------------------------

  function Members(q: seq<nat>): set<nat> {
    set x | x in q
  }

  lemma {:induction false} FewMembers(q: seq<nat>)
    ensures |Members(q)| <= |q|
  {
    if q != [] {
      FewMembers(q[1..]);
      assert Members(q) == {q[0]} + Members(q[1..]);
    }
  }

  /** Whoever has a room was admitted. */
  lemma OccupantsWereAdmitted(s: State)
    requires Ordered(s)
    ensures |Occupants(s)| <= |s.admitted|
  {
    forall c | c in Occupants(s) ensures c in s.admitted {
      assert Placed(s, c);
    }
    assert Members(s.admitted) == Occupants(s) + (Members(s.admitted) - Occupants(s));
    FewMembers(s.admitted);
  }

  /** While the administrator rests, a working mutex keeps the clients out. */
  lemma RestingKeepsOut(m: Mutexes, s: State, w: Who)
    ensures Inv(m, s) && !m.waiters.Void? && Resting(s) && w.Client? ==> Step(m, s, w).None?
  {
    if Inv(m, s) {
      assert LockedFor(m, s, Administrator) && LockedFor(m, s, w);
    }
  }

  lemma LeftOverKept(m: Mutexes, s: State, w: Who)
    requires Inv(m, s) && !m.rooms.Void? && !m.waiters.Void? && Step(m, s, w).Some?
    ensures LeftOver(Step(m, s, w).value)
  {
    OccupantsWereAdmitted(s);
    RestingKeepsOut(m, s, w);
  }

  /** A normal mutex lets no second day begin. */
  lemma OneDayKept(m: Mutexes, s: State, w: Who)
    requires Inv(m, s) && m.waiters.Normal? && Step(m, s, w).Some?
    ensures OneDay(Step(m, s, w).value)
  {
    assert WaitersDepth(m.waiters, s, Administrator) == DepthOf(s.waitersLock, Administrator);
  }

  lemma StepKeepsInv(m: Mutexes, s: State, w: Who)
    requires Inv(m, s) && Step(m, s, w).Some?
    ensures Inv(m, Step(m, s, w).value)
  {
    LockedKept(m, s, w);
    OrderKept(m, s, w);
    if !m.rooms.Void? {
      CountKept(m, s, w);
      if !m.waiters.Void? {
        LeftOverKept(m, s, w);
      }
    }
    if m.waiters.Normal? {
      OneDayKept(m, s, w);
    }
  }

  lemma {:induction false} RunKeepsInv(m: Mutexes, s: State, schedule: seq<Who>)
    requires Inv(m, s) && Run(m, s, schedule).Some?
    ensures Inv(m, Run(m, s, schedule).value)
    decreases |schedule|
  {
    if schedule != [] {
      StepKeepsInv(m, s, schedule[0]);
      RunKeepsInv(m, Step(m, s, schedule[0]).value, schedule[1..]);
    }
  }
}
