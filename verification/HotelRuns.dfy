/** What all runs of the hotel have in common, and which of it takes working mutexes. */
module HotelRuns {
  import opened Sums
  import opened Hotel
  import opened HotelProof
  import opened HotelEnd

  predicate Reaches(m: Mutexes, n: nat, schedule: seq<Who>, s: State) {
    Run(m, Start(n), schedule) == Some(s)
  }

  /** At every moment of every run, on all sixteen days and with mutexes of every kind, the
      admitted followed by the waiting are the arrived. Unless the rooms' mutex is void, the
      free rooms and the occupied ones make thirty, though the number is tested outside the
      lock. */
  lemma RoomsAndOrder(m: Mutexes, n: nat, schedule: seq<Who>, s: State)
    requires Reaches(m, n, schedule, s)
    ensures s.arrived == s.admitted + s.waiting && Distinct(s.arrived)
    ensures !m.rooms.Void? ==> s.rooms >= 0 && s.rooms + |Occupants(s)| == 30
    ensures s.day <= 16 && (s.admin.Closed? ==> s.day == 16)
  {
    StartInv(m, n);
    RunKeepsInv(m, Start(n), schedule);
  }

  // --- Building runs --------------------------------------------------------------------------------------

  lemma {:induction false} RunAppend(m: Mutexes, s: State, first: seq<Who>, rest: seq<Who>)
    ensures Run(m, s, first + rest) == match Run(m, s, first) case None => None case Some(t) => Run(m, t, rest)
    decreases |first|
  {
    if first == [] {
      assert first + rest == rest;
    } else {
      assert (first + rest)[1..] == first[1..] + rest;
      var t := Step(m, s, first[0]);
      if t.Some? {
        RunAppend(m, t.value, first[1..], rest);
      }
    }
  }

  /** One more step of w. */
  lemma Go(m: Mutexes, n: nat, schedule: seq<Who>, s: State, w: Who) returns (more: seq<Who>, t: State)
    requires Reaches(m, n, schedule, s) && Step(m, s, w).Some?
    ensures Step(m, s, w) == Some(t) && more == schedule + [w] && Reaches(m, n, more, t)
  {
    t := Step(m, s, w).value;
    more := schedule + [w];
    RunAppend(m, Start(n), schedule, [w]);
    assert [w][1..] == [] && Run(m, t, []) == Some(t);
  }

  /** Client c gets onto the benches. */
  lemma GoArrive(m: Mutexes, n: nat, schedule: seq<Who>, s: State, c: nat) returns (more: seq<Who>, t: State)
    requires Reaches(m, n, schedule, s) && !s.over && s.waitersLock.Free?
    requires c < |s.arrivals| && s.arrivals[c].Away?
    ensures schedule <= more && Reaches(m, n, more, t)
    ensures t == s.(arrivals := s.arrivals[c := Through], waiting := s.waiting + [c], arrived := s.arrived + [c])
  {
    more, t := Go(m, n, schedule, s, Client(c));
    more, t := Go(m, n, more, t, Client(c));
    more, t := Go(m, n, more, t, Client(c));
  }

  /** The administrator calls the first client. */
  lemma GoCall(m: Mutexes, n: nat, schedule: seq<Who>, s: State) returns (more: seq<Who>, t: State)
    requires Reaches(m, n, schedule, s) && !s.over && s.waitersLock.Free? && s.waiting != [] && s.rooms > 0
    requires s.admin.Relock? || (s.admin.Morning? && s.day < DAYS)
    ensures schedule <= more && Reaches(m, n, more, t)
    ensures var c := s.waiting[0];
      t == s.(admin := WantRoom(c), waiting := s.waiting[1..], admitted := s.admitted + [c])
  {
    more, t := Go(m, n, schedule, s, Administrator);
    more, t := Go(m, n, more, t, Administrator);
    more, t := Go(m, n, more, t, Administrator);
    more, t := Go(m, n, more, t, Administrator);
    more, t := Go(m, n, more, t, Administrator);
    more, t := Go(m, n, more, t, Administrator);
  }

  // --- A later day ------------------------------------------------------------------------------------------

  /** The loop of one day ends for want of clients, and somebody is admitted afterwards. */
  ghost predicate AdmitsAfterDesertion(m: Mutexes, n: nat, first: seq<Who>, rest: seq<Who>) {
    var s := Run(m, Start(n), first);
    && s.Some? && s.value.admin.Evening? && s.value.waiting == []
    && var t := Run(m, s.value, rest);
       t.Some? && t.value.admitted != s.value.admitted
  }

  lemma AdmissionOnDayOne(m: Mutexes) returns (first: seq<Who>, rest: seq<Who>)
    requires m.waiters.Void?
    ensures AdmitsAfterDesertion(m, 1, first, rest)
  {
    var s := Start(1);
    assert Reaches(m, 1, [], s);
    first, s := Go(m, 1, [], s, Administrator);
    first, s := Go(m, 1, first, s, Administrator);
    assert s == Start(1).(admin := Evening);
    var more, t := Go(m, 1, first, s, Administrator);
    more, t := GoArrive(m, 1, more, t, 0);
    more, t := GoCall(m, 1, more, t);
    rest := more[|first|..];
    assert more == first + rest;
    RunAppend(m, Start(1), first, rest);
  }

  /** There are such runs if and only if the waiters' mutex is void. */
  lemma AdmitsAfterDesertionIff(m: Mutexes)
    ensures (exists n, first, rest :: AdmitsAfterDesertion(m, n, first, rest)) <==> m.waiters.Void?
  {
    if m.waiters.Void? {
      var first, rest := AdmissionOnDayOne(m);
    } else {
      forall n, first, rest ensures !AdmitsAfterDesertion(m, n, first, rest) {
        if Run(m, Start(n), first).Some? {
          var s := Run(m, Start(n), first).value;
          StartInv(m, n);
          RunKeepsInv(m, Start(n), first);
          if Deserted(s) && Run(m, s, rest).Some? {
            DesertedForever(m, s, rest);
          }
        }
      }
    }
  }

  /** The loop of a second day begins. */
  ghost predicate BeginsSecondDay(m: Mutexes, n: nat, schedule: seq<Who>) {
    var s := Run(m, Start(n), schedule);
    s.Some? && s.value.day > 0 && s.value.admin.TestQueue?
  }

  lemma EmptyDays(m: Mutexes) returns (schedule: seq<Who>)
    requires !m.waiters.Normal?
    ensures BeginsSecondDay(m, 0, schedule)
  {
    var s := Start(0);
    assert Reaches(m, 0, [], s);
    schedule, s := Go(m, 0, [], s, Administrator);
    schedule, s := Go(m, 0, schedule, s, Administrator);
    schedule, s := Go(m, 0, schedule, s, Administrator);
    schedule, s := Go(m, 0, schedule, s, Administrator);
  }

  /** There are such runs if and only if locking twice does not block. */
  lemma BeginsSecondDayIff(m: Mutexes)
    ensures (exists n, schedule :: BeginsSecondDay(m, n, schedule)) <==> !m.waiters.Normal?
  {
    if m.waiters.Normal? {
      forall n, schedule ensures !BeginsSecondDay(m, n, schedule) {
        if Run(m, Start(n), schedule).Some? {
          StartInv(m, n);
          RunKeepsInv(m, Start(n), schedule);
        }
      }
    } else {
      var schedule := EmptyDays(m);
    }
  }

  // --- A lost room --------------------------------------------------------------------------------------------

  ghost predicate RoomsKept(m: Mutexes, n: nat, schedule: seq<Who>) {
    var s := Run(m, Start(n), schedule);
    s.Some? ==> s.value.rooms + |Occupants(s.value)| == ROOMS
  }

  /** The first guest moves in and reads the number to give his room back. */
  lemma GoLeave(m: Mutexes) returns (schedule: seq<Who>, s: State)
    requires m.rooms.Void?
    ensures Reaches(m, 2, schedule, s)
    ensures s == Start(2).(admin := Relock, arrivals := [Through, Through], stays := [Stay.Counting(29), Absent],
                           rooms := 29, waiting := [1], arrived := [0, 1], admitted := [0])
  {
    s := Start(2);
    assert Reaches(m, 2, [], s);
    schedule, s := GoArrive(m, 2, [], s, 0);
    schedule, s := GoArrive(m, 2, schedule, s, 1);
    assert s == Start(2).(arrivals := [Through, Through], waiting := [0, 1], arrived := [0, 1]);
    schedule, s := GoCall(m, 2, schedule, s);
    schedule, s := Go(m, 2, schedule, s, Administrator);
    schedule, s := Go(m, 2, schedule, s, Administrator);
    schedule, s := Go(m, 2, schedule, s, Administrator);
    schedule, s := Go(m, 2, schedule, s, Administrator);
    schedule, s := Go(m, 2, schedule, s, Administrator);
    schedule, s := Go(m, 2, schedule, s, Guest(0));
    schedule, s := Go(m, 2, schedule, s, Guest(0));
  }

  /** Meanwhile the administrator gives out another, and the guest overwrites the number. */
  lemma LostUpdate(m: Mutexes) returns (schedule: seq<Who>)
    requires m.rooms.Void?
    ensures !RoomsKept(m, 2, schedule)
  {
    var s;
    schedule, s := GoLeave(m);
    schedule, s := GoCall(m, 2, schedule, s);
    schedule, s := Go(m, 2, schedule, s, Administrator);
    schedule, s := Go(m, 2, schedule, s, Administrator);
    schedule, s := Go(m, 2, schedule, s, Administrator);
    schedule, s := Go(m, 2, schedule, s, Guest(0));
    assert s.rooms == 30 && s.admin == Taken(1) && s.stays == [Returned, Absent];
    assert Occupants(s) == {1};
  }

  /** The rooms add up in all runs if and only if their mutex is not void. */
  lemma RoomsKeptIff(m: Mutexes)
    ensures (forall n, schedule :: RoomsKept(m, n, schedule)) <==> !m.rooms.Void?
  {
    if m.rooms.Void? {
      var schedule := LostUpdate(m);
    } else {
      forall n, schedule ensures RoomsKept(m, n, schedule) {
        if Run(m, Start(n), schedule).Some? {
          RoomsAndOrder(m, n, schedule, Run(m, Start(n), schedule).value);
        }
      }
    }
  }

  // --- A stay cut off -------------------------------------------------------------------------------------------

  /** Where the run cannot go on, nobody has a room. */
  ghost predicate LeavesNobody(m: Mutexes, n: nat, schedule: seq<Who>) {
    var s := Run(m, Start(n), schedule);
    s.Some? && !Moving(m, s.value) ==> Occupants(s.value) == {}
  }

  /** A client is admitted and stays, and the loop finds nobody else. */
  lemma GoStay(m: Mutexes) returns (schedule: seq<Who>, s: State)
    ensures Reaches(m, 1, schedule, s) && !s.over
    ensures s.admin.Evening? && s.waiting == [] && s.arrivals == [Through] && s.stays == [Staying]
  {
    s := Start(1);
    assert Reaches(m, 1, [], s);
    schedule, s := GoArrive(m, 1, [], s, 0);
    schedule, s := GoCall(m, 1, schedule, s);
    schedule, s := Go(m, 1, schedule, s, Administrator);
    schedule, s := Go(m, 1, schedule, s, Administrator);
    schedule, s := Go(m, 1, schedule, s, Administrator);
    schedule, s := Go(m, 1, schedule, s, Administrator);
    schedule, s := Go(m, 1, schedule, s, Administrator);
    schedule, s := Go(m, 1, schedule, s, Administrator);
    schedule, s := Go(m, 1, schedule, s, Administrator);
  }

  /** The administrator's lock is no obstacle to himself, unless locking twice blocks. */
  lemma MorningGoesOn(m: Mutexes, n: nat, schedule: seq<Who>, s: State)
    requires Reaches(m, n, schedule, s) && !m.waiters.Normal? && s.admin.Morning? && s.day > 0
    ensures AdminStep(m, s).Some?
  {
    StartInv(m, n);
    RunKeepsInv(m, Start(n), schedule);
    assert LockedFor(m, s, Administrator);
  }

  /** The administrator passes the days that are left and closes. */
  lemma {:induction false} GoHome(m: Mutexes, n: nat, schedule: seq<Who>, s: State)
      returns (more: seq<Who>, t: State)
    requires Reaches(m, n, schedule, s) && !m.waiters.Normal?
    requires !s.over && s.admin.Evening? && s.waiting == [] && s.day < DAYS
    ensures Reaches(m, n, more, t)
    ensures !t.over && t.admin.Closed? && t.arrivals == s.arrivals && t.stays == s.stays
    decreases DAYS - s.day
  {
    more, t := Go(m, n, schedule, s, Administrator);
    MorningGoesOn(m, n, more, t);
    more, t := Go(m, n, more, t, Administrator);
    if t.admin.TestQueue? {
      more, t := Go(m, n, more, t, Administrator);
      more, t := GoHome(m, n, more, t);
    }
  }

  /** Main does not wait for stays. */
  lemma CutOff(m: Mutexes) returns (schedule: seq<Who>)
    requires !m.waiters.Normal?
    ensures !LeavesNobody(m, 1, schedule)
  {
    var s;
    schedule, s := GoStay(m);
    StartInv(m, 1);
    RunKeepsInv(m, Start(1), schedule);
    schedule, s := GoHome(m, 1, schedule, s);
    schedule, s := Go(m, 1, schedule, s, Main);
    forall w ensures Step(m, s, w).None? {
    }
    assert 0 in Occupants(s);
  }

  /** All rooms are free where a run cannot go on, in all runs, if and only if locking the
      waiters twice blocks: otherwise main may return while a guest stays. */
  lemma LeavesNobodyIff(m: Mutexes)
    ensures (forall n, schedule :: LeavesNobody(m, n, schedule)) <==> m.waiters.Normal?
  {
    if m.waiters.Normal? {
      forall n, schedule ensures LeavesNobody(m, n, schedule) {
        if Run(m, Start(n), schedule).Some? {
          var s := Run(m, Start(n), schedule).value;
          StartInv(m, n);
          RunKeepsInv(m, Start(n), schedule);
          StuckIff(m, s);
        }
      }
    } else {
      var schedule := CutOff(m);
    }
  }
}
