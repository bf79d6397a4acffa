/** Where the runs of the hotel end, for each kind of mutex. */
module HotelEnd {
  import opened Sums
  import opened Hotel
  import opened HotelProof

  // --- After the last arrival ---------------------------------------------------------------------------

  /** The administrator waits for a lock that he holds himself. */
  predicate Shut(s: State) {
    s.admin.Morning? && s.day > 0
  }

  lemma ShutStep(m: Mutexes, s: State, w: Who)
    requires Inv(m, s) && m.waiters.Normal? && Shut(s) && Step(m, s, w).Some?
    ensures var t := Step(m, s, w).value;
      Shut(t) && t.arrived == s.arrived && t.admitted == s.admitted && t.waiting == s.waiting
  {
    assert LockedFor(m, s, Administrator) && LockedFor(m, s, w);
  }

  /** If locking twice blocks, the second morning is the last: from then on nobody is admitted,
      and nobody even gets onto the benches. */
  lemma {:induction false} ShutForever(m: Mutexes, s: State, schedule: seq<Who>)
    requires Inv(m, s) && m.waiters.Normal? && Shut(s) && Run(m, s, schedule).Some?
    ensures var t := Run(m, s, schedule).value;
      Shut(t) && t.arrived == s.arrived && t.admitted == s.admitted && t.waiting == s.waiting
    decreases |schedule|
  {
    if schedule != [] {
      ShutStep(m, s, schedule[0]);
      StepKeepsInv(m, s, schedule[0]);
      ShutForever(m, Step(m, s, schedule[0]).value, schedule[1..]);
    }
  }

  /** The loop has ended for want of clients. */
  predicate Deserted(s: State) {
    s.waiting == [] && (Resting(s) || (s.admin.TestQueue? && s.day > 0))
  }

  lemma DesertedStep(m: Mutexes, s: State, w: Who)
    requires Inv(m, s) && !m.waiters.Void? && Deserted(s) && Step(m, s, w).Some?
    ensures var t := Step(m, s, w).value;
      Deserted(t) && t.arrived == s.arrived && t.admitted == s.admitted
  {
    assert WaitersDepth(m.waiters, s, Administrator) > 0;
    assert LockedFor(m, s, Administrator) && LockedFor(m, s, w);
  }

  /** Unless the mutex is void, the first loop that ends for want of clients is the end: the
      lock stays with the administrator, and nobody gets onto the benches any more. */
  lemma {:induction false} DesertedForever(m: Mutexes, s: State, schedule: seq<Who>)
    requires Inv(m, s) && !m.waiters.Void? && Deserted(s) && Run(m, s, schedule).Some?
    ensures var t := Run(m, s, schedule).value;
      Deserted(t) && t.arrived == s.arrived && t.admitted == s.admitted
    decreases |schedule|
  {
    if schedule != [] {
      DesertedStep(m, s, schedule[0]);
      StepKeepsInv(m, s, schedule[0]);
      DesertedForever(m, Step(m, s, schedule[0]).value, schedule[1..]);
    }
  }

  // --- Who can still move ---------------------------------------------------------------------------------

  /** Some thread can move. */
  ghost predicate Moving(m: Mutexes, s: State) {
    exists w :: Step(m, s, w).Some?
  }

  /** Every stay is over, and main still waits: for a client who cannot get to the benches, or for
      the administrator, caught in his own lock. */
  predicate Hanging(m: Mutexes, s: State) {
    && (forall c :: 0 <= c < |s.stays| ==> s.stays[c] in {Absent, Gone})
    && (forall c :: 0 <= c < |s.arrivals| ==> s.arrivals[c] in if m.waiters.Void? then {Through} else {Away, Through})
    && (if m.waiters.Normal? then Shut(s) else s.admin.Closed?)
    && !Joined(s)
  }

  /** The process is over, or it hangs. */
  predicate Finished(m: Mutexes, s: State) {
    s.over || Hanging(m, s)
  }

  lemma RoomHolderMoves(m: Mutexes, s: State, w: Who)
    requires Inv(m, s) && !s.over && RoomsDepth(m.rooms, s, w) > 0
    ensures Moving(m, s)
  {
    assert Step(m, s, w).Some?;
  }

  lemma BenchHolderMoves(m: Mutexes, s: State, c: nat)
    requires Inv(m, s) && !s.over && WaitersDepth(m.waiters, s, Client(c)) > 0
    ensures Moving(m, s)
  {
    assert Step(m, s, Client(c)).Some?;
  }

  /** Who finds the rooms locked can wait for the holder. */
  lemma RoomSeekerMoves(m: Mutexes, s: State, w: Who)
    requires Inv(m, s) && !s.over
    requires match w
      case Administrator => s.admin.WantRoom?
      case Guest(c) => c < |s.stays| && s.stays[c].Staying?
      case _ => false
    ensures Moving(m, s)
  {
    if Acquire(m.rooms, s.roomLock, w).None? {
      var v := s.roomLock.owner;
      assert LockedFor(m, s, v);
      RoomHolderMoves(m, s, v);
    } else {
      assert Step(m, s, w).Some?;
    }
  }

  /** So can the administrator who finds the waiters locked, unless it is he who has them locked. */
  lemma BenchSeekerMoves(m: Mutexes, s: State)
    requires Inv(m, s) && !s.over && WaitersDepth(m.waiters, s, Administrator) == 0
    requires s.admin.Morning? || s.admin.Relock?
    ensures Moving(m, s)
  {
    if Acquire(m.waiters, s.waitersLock, Administrator).None? {
      var v := s.waitersLock.owner;
      assert LockedFor(m, s, v) && LockedFor(m, s, Administrator);
      BenchHolderMoves(m, s, v.id);
    } else {
      assert Step(m, s, Administrator).Some?;
    }
  }

  lemma AdminMoves(m: Mutexes, s: State)
    requires Inv(m, s) && !s.over && !s.admin.Closed? && !(m.waiters.Normal? && Shut(s))
    ensures Moving(m, s)
  {
    if s.admin.WantRoom? {
      RoomSeekerMoves(m, s, Administrator);
    } else if (s.admin.Morning? || s.admin.Relock?) && WaitersDepth(m.waiters, s, Administrator) == 0 {
      BenchSeekerMoves(m, s);
    } else {
      if s.admin.Showing? {
        GuestInHand(s);
      }
      assert LockedFor(m, s, Administrator);
      assert Step(m, s, Administrator).Some?;
    }
  }

  lemma GuestMoves(m: Mutexes, s: State, c: nat)
    requires Inv(m, s) && !s.over && c < |s.stays| && s.stays[c] !in {Absent, Gone}
    ensures Moving(m, s)
  {
    if s.stays[c].Staying? {
      RoomSeekerMoves(m, s, Guest(c));
    } else {
      assert Step(m, s, Guest(c)).Some?;
    }
  }

  lemma ClientMoves(m: Mutexes, s: State, c: nat)
    requires Inv(m, s) && !s.over && c < |s.arrivals|
    requires s.arrivals[c] !in if m.waiters.Void? then {Through} else {Away, Through}
    ensures Moving(m, s)
  {
    assert Step(m, s, Client(c)).Some?;
  }

  lemma NobodyMoves(m: Mutexes, s: State)
    requires Inv(m, s) && Finished(m, s)
    ensures !Moving(m, s)
  {
    assert LockedFor(m, s, Administrator);
    forall w ensures Step(m, s, w).None? {
    }
  }

  /** Nothing moves any more if and only if main has returned, or every stay is over and main waits
      for somebody who cannot go on: a client before a lock the administrator never gave back, or
      the administrator himself, where locking twice blocks. */
  lemma StuckIff(m: Mutexes, s: State)
    requires Inv(m, s)
    ensures !Moving(m, s) <==> Finished(m, s)
  {
    if Finished(m, s) {
      NobodyMoves(m, s);
    } else if c :| 0 <= c < |s.stays| && s.stays[c] !in {Absent, Gone} {
      GuestMoves(m, s, c);
    } else if c :| 0 <= c < |s.arrivals| && s.arrivals[c] !in if m.waiters.Void? then {Through} else {Away, Through} {
      ClientMoves(m, s, c);
    } else if Joined(s) {
      assert Step(m, s, Main).Some?;
    } else {
      AdminMoves(m, s);
    }
  }

  /** Main returns when, and only when, the administrator has closed and every client's thread is
      through, whatever the stays are doing. */
  lemma MainReturnsIff(m: Mutexes, n: nat, schedule: seq<Who>)
    requires Run(m, Start(n), schedule).Some?
    ensures var s := Run(m, Start(n), schedule).value;
      && (Step(m, s, Main).Some? <==>
           !s.over && s.admin.Closed? && forall c :: 0 <= c < |s.arrivals| ==> s.arrivals[c].Through?)
      && (s.over ==> s.admin.Closed? && forall c :: 0 <= c < |s.arrivals| ==> s.arrivals[c].Through?)
  {
    StartInv(m, n);
    RunKeepsInv(m, Start(n), schedule);
  }

  // --- Every run ends -------------------------------------------------------------------------------------

  function ArrivalSteps(a: Arrival): nat {
    match a
    case Away => 3
    case Queueing => 2
    case Queued => 1
    case Through => 0
  }

  function StaySteps(t: Stay): nat {
    match t
    case Absent => 5
    case Staying => 4
    case Leaving => 3
    case Counting(_) => 2
    case Returned => 1
    case Gone => 0
  }

  /** The steps the administrator has before him: five a day, and eleven for each guest that are
      not counted here. */
  function AdminSteps(s: State): int {
    5 * (DAYS - s.day) +
    match s.admin
    case Called(_) => 7
    case WantRoom(_) => 6
    case AtDesk(_) => 5
    case Counting(_, _) => 4
    case Taken(_) => 3
    case Showing(_) => 2
    case Relock => 1
    case Morning => 1
    case TestQueue => 0
    case TestRooms => -1
    case TestAgain => -2
    case Calling => -3
    case Evening => -3
    case Closed => 0
  }

  function AllArrivalSteps(arrivals: seq<Arrival>): seq<nat> {
    seq(|arrivals|, c requires 0 <= c < |arrivals| => ArrivalSteps(arrivals[c]))
  }

  function AllStaySteps(stays: seq<Stay>): seq<nat> {
    seq(|stays|, c requires 0 <= c < |stays| => StaySteps(stays[c]))
  }

  function StepsLeft(s: State): int {
    Total(AllArrivalSteps(s.arrivals)) + Total(AllStaySteps(s.stays))
    + AdminSteps(s) + 11 * (|s.arrivals| - |s.admitted|) + (if s.over then 0 else 1)
  }

  lemma ArrivalUpdate(arrivals: seq<Arrival>, c: nat, a: Arrival)
    requires c < |arrivals|
    ensures Total(AllArrivalSteps(arrivals[c := a])) + ArrivalSteps(arrivals[c])
         == Total(AllArrivalSteps(arrivals)) + ArrivalSteps(a)
  {
    assert AllArrivalSteps(arrivals[c := a]) == AllArrivalSteps(arrivals)[c := ArrivalSteps(a)];
    TotalUpdate(AllArrivalSteps(arrivals), c, ArrivalSteps(a));
  }

  lemma StayUpdate(stays: seq<Stay>, c: nat, t: Stay)
    requires c < |stays|
    ensures Total(AllStaySteps(stays[c := t])) + StaySteps(stays[c]) == Total(AllStaySteps(stays)) + StaySteps(t)
  {
    assert AllStaySteps(stays[c := t]) == AllStaySteps(stays)[c := StaySteps(t)];
    TotalUpdate(AllStaySteps(stays), c, StaySteps(t));
  }

  lemma {:induction false} DistinctMembers(q: seq<nat>)
    requires Distinct(q)
    ensures |Members(q)| == |q|
  {
    if q != [] {
      DistinctMembers(q[1..]);
      assert Members(q) == {q[0]} + Members(q[1..]);
      assert q[0] !in Members(q[1..]);
    }
  }

  function Below(n: nat): (r: set<nat>)
    ensures |r| == n && forall x: nat :: x in r <==> x < n
  {
    if n == 0 then {} else Below(n - 1) + {n - 1}
  }

  /** Nobody is admitted who is not a client, or twice. */
  lemma FewAdmitted(s: State)
    requires Ordered(s)
    ensures |s.admitted| <= |s.arrivals|
  {
    DistinctMembers(s.arrived);
    assert Below(|s.arrivals|) == Members(s.arrived) + (Below(|s.arrivals|) - Members(s.arrived));
  }

  lemma StepsLeftNatural(s: State)
    requires Ordered(s)
    ensures StepsLeft(s) >= 0
  {
    FewAdmitted(s);
    assert AdminSteps(s) >= 0;
  }

  lemma AdminStepCounts(m: Mutexes, s: State)
    requires Ordered(s) && AdminStep(m, s).Some?
    ensures StepsLeft(AdminStep(m, s).value) < StepsLeft(s)
  {
    if s.admin.Showing? {
      GuestInHand(s);
      StayUpdate(s.stays, s.admin.guest, Staying);
    }
  }

  lemma ClientStepCounts(m: Mutexes, s: State, c: nat)
    requires c < |s.arrivals| && ClientStep(m, s, c).Some?
    ensures StepsLeft(ClientStep(m, s, c).value) < StepsLeft(s)
  {
    var t := ClientStep(m, s, c).value;
    ArrivalUpdate(s.arrivals, c, t.arrivals[c]);
    assert t.arrivals == s.arrivals[c := t.arrivals[c]];
  }

  lemma GuestStepCounts(m: Mutexes, s: State, c: nat)
    requires c < |s.stays| && GuestStep(m, s, c).Some?
    ensures StepsLeft(GuestStep(m, s, c).value) < StepsLeft(s)
  {
    var t := GuestStep(m, s, c).value;
    StayUpdate(s.stays, c, t.stays[c]);
    assert t.stays == s.stays[c := t.stays[c]];
  }

  lemma EveryStepCounts(m: Mutexes, s: State, w: Who)
    requires Ordered(s) && Step(m, s, w).Some?
    ensures StepsLeft(Step(m, s, w).value) < StepsLeft(s)
  {
    match w
    case Main =>
    case Administrator => AdminStepCounts(m, s);
    case Client(c) => ClientStepCounts(m, s, c);
    case Guest(c) => GuestStepCounts(m, s, c);
  }

  lemma {:induction false} RunsAreShort(m: Mutexes, s: State, schedule: seq<Who>)
    requires Ordered(s) && Run(m, s, schedule).Some?
    ensures |schedule| <= StepsLeft(s) - StepsLeft(Run(m, s, schedule).value)
    decreases |schedule|
  {
    if schedule != [] {
      OrderKept(m, s, schedule[0]);
      EveryStepCounts(m, s, schedule[0]);
      RunsAreShort(m, Step(m, s, schedule[0]).value, schedule[1..]);
    }
  }

  lemma {:induction false} StartSteps(n: nat)
    ensures Total(AllArrivalSteps(Start(n).arrivals)) == 3 * n
    ensures Total(AllStaySteps(Start(n).stays)) == 5 * n
  {
    if n > 0 {
      StartSteps(n - 1);
      assert AllArrivalSteps(Start(n).arrivals)[1..] == AllArrivalSteps(Start(n - 1).arrivals);
      assert AllStaySteps(Start(n).stays)[1..] == AllStaySteps(Start(n - 1).stays);
    }
  }

  /** No run is longer than nineteen steps a client, five a day and two more, and a run that
      cannot go on is over or hangs. Unless the rooms' mutex is void, a run that hangs leaves all
      rooms free. Unless the waiters' is void too, clients are left on the benches only after at
      least thirty admissions. */
  lemma EveryRunEnds(m: Mutexes, n: nat, schedule: seq<Who>)
    requires Run(m, Start(n), schedule).Some?
    ensures |schedule| <= 19 * n + 82
    ensures var s := Run(m, Start(n), schedule).value;
      !Moving(m, s) ==>
        && Finished(m, s)
        && (!m.rooms.Void? && !s.over ==> s.rooms == 30)
        && (!m.rooms.Void? && !m.waiters.Void? && s.waiting != [] ==> |s.admitted| >= 30)
  {
    var s := Run(m, Start(n), schedule).value;
    StartInv(m, n);
    RunKeepsInv(m, Start(n), schedule);
    RunsAreShort(m, Start(n), schedule);
    StepsLeftNatural(s);
    StartSteps(n);
    StuckIff(m, s);
    if !Moving(m, s) && !s.over {
      assert Occupants(s) == {};
    }
  }
}
