/** Grants are conserved, and the limits of 25 and 5 never lock the gallery. */
module GalleryProgress {
  import opened Sums
  import opened GalleryServer
  import opened GalleryVisitor
  import opened GalleryVisit

  ghost predicate Sane(vs: seq<Visitor>) {
    forall v :: 0 <= v < |vs| ==> Consistent(vs[v])
  }

  function Dues(vs: seq<Visitor>): (u: seq<nat>)
    requires Sane(vs)
    ensures |u| == |vs| && forall v :: 0 <= v < |vs| ==> u[v] == Due(vs[v])
  {
    seq(|vs|, v requires 0 <= v < |vs| => Due(vs[v]))
  }

  function AllDue(w: World): nat
    requires Inv(w)
  {
    Total(Dues(w.visitors))
  }

  lemma DueAfterReply(w: World, v: nat, p: nat)
    requires Inv(w) && Possible(w, Act(v, p))
    ensures var r := Exchange(w, v, p).1;
      Due(React(w.visitors[v], p, r)) + (if Granted(r) then 1 else 0) == Due(w.visitors[v])
  {
    if w.visitors[v].phase.Viewing? {
      LeaveServes(w, v, p);
    }
  }

  /** A granted reply lowers what is still due by exactly one, and nothing else changes it. */
  lemma GrantsAreSpent(w: World, e: Event)
    requires Inv(w) && Possible(w, e)
    ensures Inv(Next(w, e))
    ensures AllDue(Next(w, e)) + (if IsGrant(w, e) then 1 else 0) == AllDue(w)
  {
    NextKeepsInv(w, e);
    if e.Act? {
      DueAfterReply(w, e.who, e.draw);
      var x := Next(w, e).visitors[e.who];
      assert Dues(Next(w, e).visitors) == Dues(w.visitors)[e.who := Due(x)];
      TotalUpdate(Dues(w.visitors), e.who, Due(x));
    }
  }

  ghost function Run(w: World, events: seq<Event>): (r: Option<World>)
    requires Inv(w)
    ensures r.Some? ==> Inv(r.value) && |r.value.visitors| == |w.visitors|
    decreases |events|
  {
    if events == [] then Some(w)
    else if !Possible(w, events[0]) then None
    else
      NextKeepsInv(w, events[0]);
      Run(Next(w, events[0]), events[1..])
  }

  ghost function Grants(w: World, events: seq<Event>): nat
    requires Inv(w)
    decreases |events|
  {
    if events == [] || !Possible(w, events[0]) then 0
    else
      NextKeepsInv(w, events[0]);
      (if IsGrant(w, events[0]) then 1 else 0) + Grants(Next(w, events[0]), events[1..])
  }

  lemma {:induction false} GrantsAccounted(w: World, events: seq<Event>)
    requires Inv(w) && Run(w, events).Some?
    ensures AllDue(Run(w, events).value) + Grants(w, events) == AllDue(w)
    decreases |events|
  {
    if events != [] {
      GrantsAreSpent(w, events[0]);
      GrantsAccounted(Next(w, events[0]), events[1..]);
    }
  }

  lemma {:induction false} TwelveEach(vs: seq<Visitor>)
    requires Sane(vs) && forall v :: 0 <= v < |vs| ==> vs[v] == Newcomer()
    ensures Total(Dues(vs)) == 12 * |vs|
  {
    if vs != [] {
      assert Dues(vs)[1..] == Dues(vs[1..]);
      TwelveEach(vs[1..]);
    }
  }

  /** In any run of n visitors the grants given and the grants due always sum up to 12 n; the
      counters are exact and within their limits in every state on the way. */
  lemma WholeDay(n: nat, events: seq<Event>)
    ensures Inv(Opening(n))
    ensures Run(Opening(n), events).Some? ==>
      var w := Run(Opening(n), events).value;
      Inv(w) && AllDue(w) + Grants(Opening(n), events) == 12 * n
  {
    OpeningInv(n);
    TwelveEach(Opening(n).visitors);
    if Run(Opening(n), events).Some? {
      GrantsAccounted(Opening(n), events);
    }
  }

  // --- Progress --------------------------------------------------------------------------

  /** Connected, and not done yet. */
  predicate Busy(w: World, v: nat)
    requires |w.places| == |w.visitors|
  {
    v < |w.visitors| && w.places[v].At? && !w.visitors[v].phase.Leaving?
  }

  lemma ViewerIsServed(w: World, v: nat)
    requires Inv(w) && v < |w.visitors| && w.places[v].At? && w.visitors[v].phase.Viewing?
    ensures Possible(w, Act(v, 0)) && IsGrant(w, Act(v, 0))
  {
    LeaveServes(w, v, 0);
  }

  lemma NobodyViews(w: World)
    requires Inv(w) && forall v :: 0 <= v < |w.visitors| ==> !w.visitors[v].phase.Viewing?
    ensures forall p :: 0 <= p < NUM_PAINTINGS ==> w.server.counts[p] == 0
  {
    forall p | 0 <= p < NUM_PAINTINGS ensures w.server.counts[p] == 0 {
      TotalZero(Viewers(w.visitors, p));
    }
  }

  lemma TouristIsServed(w: World, v: nat) returns (p: nat)
    requires Inv(w) && v < |w.visitors| && w.places[v].At? && w.visitors[v].phase.Touring?
    requires forall q :: 0 <= q < NUM_PAINTINGS ==> w.server.counts[q] == 0
    ensures Possible(w, Act(v, p)) && IsGrant(w, Act(v, p))
  {
    assert Consistent(w.visitors[v]);
    if w.visitors[v].left > 0 {
      p := SomePaintingUnseen(w.visitors[v]);
    } else {
      p := 0;
    }
  }

  lemma WaiterIsServed(w: World, v: nat)
    requires Inv(w) && v < |w.visitors| && w.places[v].At?
    requires w.visitors[v].phase.Entering? || w.visitors[v].phase.Retrying?
    requires forall x :: 0 <= x < |w.visitors| ==> !Inside(w.visitors[x])
    ensures Possible(w, Act(v, 0)) && IsGrant(w, Act(v, 0))
  {
    TotalZero(Insiders(w.visitors));
  }

  /** Somebody inside is in a slot. */
  lemma InsiderIsSeated(w: World, v: nat)
    requires Inv(w) && v < |w.visitors| && Inside(w.visitors[v])
    ensures w.places[v].At?
  {
    assert Seated(w, v);
  }

  /** As long as a connected visitor is not done, some exchange is granted. */
  lemma SomebodyIsServed(w: World, v: nat) returns (e: Event)
    requires Inv(w) && Busy(w, v)
    ensures Possible(w, e) && IsGrant(w, e)
  {
    if x :| 0 <= x < |w.visitors| && w.visitors[x].phase.Viewing? {
      InsiderIsSeated(w, x);
      ViewerIsServed(w, x);
      e := Act(x, 0);
    } else if x :| 0 <= x < |w.visitors| && w.visitors[x].phase.Touring? {
      InsiderIsSeated(w, x);
      NobodyViews(w);
      var p := TouristIsServed(w, x);
      e := Act(x, p);
    } else {
      assert Seated(w, v);
      WaiterIsServed(w, v);
      e := Act(v, 0);
    }
  }

  predicate Finished(w: World) {
    forall v :: 0 <= v < |w.places| ==> w.places[v].Gone? || w.places[v].TurnedAway?
  }

  function Open(places: seq<Place>): (u: seq<nat>)
    ensures |u| == |places|
    ensures forall v :: 0 <= v < |places| ==> u[v] == (match places[v] case NotArrived => 2 case At(_) => 1 case _ => 0)
  {
    seq(|places|, v requires 0 <= v < |places| => match places[v] case NotArrived => 2 case At(_) => 1 case _ => 0)
  }

  lemma OpenChange(places: seq<Place>, v: nat, x: Place)
    requires v < |places|
    requires (places[v].NotArrived? && !x.NotArrived?) || (places[v].At? && x.Gone?)
    ensures Total(Open(places[v := x])) < Total(Open(places))
  {
    var k: nat := if x.At? then 1 else 0;
    assert Open(places[v := x]) == Open(places)[v := k];
    TotalUpdate(Open(places), v, k);
  }

  lemma RunCons(w: World, e: Event, rest: seq<Event>)
    requires Inv(w) && Possible(w, e) && Inv(Next(w, e))
    ensures Run(w, [e] + rest) == Run(Next(w, e), rest)
  {
    assert ([e] + rest)[1..] == rest;
  }

  /** w is nearer to an empty gallery than was, and nobody has been turned away in between. */
  ghost predicate Nearer(was: World, w: World) {
    && Inv(was) && Inv(w) && |w.places| == |was.places|
    && (AllDue(w) < AllDue(was) || (AllDue(w) == AllDue(was) && Total(Open(w.places)) < Total(Open(was.places))))
    && (forall v :: 0 <= v < |w.places| && w.places[v].TurnedAway? ==> was.places[v].TurnedAway?)
  }

  /** Somebody connected can go on. */
  lemma ServeSomebody(w: World, v: nat) returns (e: Event)
    requires Inv(w) && v < |w.places| && w.places[v].At?
    ensures Possible(w, e) && Nearer(w, Next(w, e))
  {
    if w.visitors[v].phase.Leaving? {
      e := Act(v, 0);
      OpenChange(w.places, v, Gone);
    } else {
      e := SomebodyIsServed(w, v);
    }
    GrantsAreSpent(w, e);
  }

  /** When nobody is connected, a newcomer gets the first slot. */
  lemma LetSomebodyArrive(w: World, v: nat)
    requires Inv(w) && v < |w.places| && w.places[v].NotArrived?
    requires forall x :: 0 <= x < |w.places| ==> !w.places[x].At?
    ensures Possible(w, Arrive(v)) && Nearer(w, Next(w, Arrive(v)))
  {
    assert SlotInOrder(w, 0);
    assert w.server.clients[0].fd == -1;
    assert FreeSlot(w.server.clients, 0).Some?;
    OpenChange(w.places, v, Next(w, Arrive(v)).places[v]);
    GrantsAreSpent(w, Arrive(v));
  }

  /** The next event on the way to an empty gallery: the connected come first, and a newcomer
      arrives when there is nobody. */
  lemma NextToFinish(w: World) returns (e: Event)
    requires Inv(w) && !Finished(w)
    ensures Possible(w, e) && Nearer(w, Next(w, e))
  {
    if v :| 0 <= v < |w.places| && w.places[v].At? {
      e := ServeSomebody(w, v);
    } else {
      var v :| 0 <= v < |w.places| && !w.places[v].Gone? && !w.places[v].TurnedAway?;
      LetSomebodyArrive(w, v);
      e := Arrive(v);
    }
  }

  predicate SeenAll(v: Visitor) {
    forall p :: 0 <= p < |v.visited| ==> v.visited[p]
  }

  /** Who is gone has seen every painting. */
  lemma GoneMeansSeenAll(w: World, v: nat)
    requires Inv(w) && v < |w.places| && w.places[v].Gone?
    ensures SeenAll(w.visitors[v])
  {
    assert Seated(w, v) && Consistent(w.visitors[v]);
    TotalZero(Unseen(w.visitors[v].visited));
  }

  /** Everybody has seen everything and gone home, but for those turned away before. */
  ghost predicate AllHome(was: World, w: World) {
    && |w.places| == |w.visitors| == |was.places|
    && (forall v :: 0 <= v < |w.places| ==>
         (w.places[v].Gone? && SeenAll(w.visitors[v])) || (w.places[v].TurnedAway? && was.places[v].TurnedAway?))
  }

  /** From every reachable state everybody who has not been turned away already can still see
      everything and go home. */
  lemma {:induction false} CanAlwaysFinish(w: World) returns (events: seq<Event>)
    requires Inv(w)
    ensures Run(w, events).Some? && AllHome(w, Run(w, events).value)
    decreases AllDue(w), Total(Open(w.places))
  {
    if Finished(w) {
      events := [];
      forall v | 0 <= v < |w.places| && w.places[v].Gone? ensures SeenAll(w.visitors[v]) {
        GoneMeansSeenAll(w, v);
      }
    } else {
      var e := NextToFinish(w);
      events := CanAlwaysFinish(Next(w, e));
      RunCons(w, e, events);
      events := [e] + events;
    }
  }

  /** So a day for any number of visitors can end with all of them having seen everything. */
  lemma EverybodyCanBeServed(n: nat) returns (events: seq<Event>)
    ensures Inv(Opening(n)) && Run(Opening(n), events).Some?
    ensures var w := Run(Opening(n), events).value;
      |w.visitors| == n && forall v :: 0 <= v < n ==> SeenAll(w.visitors[v]) && w.visitors[v].phase == Done
  {
    OpeningInv(n);
    events := CanAlwaysFinish(Opening(n));
    var w := Run(Opening(n), events).value;
    forall v | 0 <= v < n ensures SeenAll(w.visitors[v]) && w.visitors[v].phase == Done {
      assert !Opening(n).places[v].TurnedAway?;
      assert Seated(w, v);
    }
  }

  // --- The 300 slots are enough for 300 visitors -----------------------------------------

  lemma {:induction false} DistinctBelow(s: seq<nat>, m: nat)
    requires forall i :: 0 <= i < |s| ==> s[i] < m
    requires forall i, j :: 0 <= i < j < |s| ==> s[i] != s[j]
    ensures |s| <= m
    decreases m
  {
    if i :| 0 <= i < |s| && s[i] == m - 1 {
      DistinctBelow(s[..i] + s[i + 1..], m - 1);
    } else if s != [] {
      assert s[0] < m;
      DistinctBelow(s, m - 1);
    }
  }

  /** With at most 300 visitors a newcomer always finds a free slot. */
  lemma NobodyIsTurnedAway(w: World, v: nat)
    requires Inv(w) && Possible(w, Arrive(v)) && |w.visitors| <= MAX_CLIENTS
    ensures Next(w, Arrive(v)).places[v].At?
  {
    if FreeSlot(w.server.clients, 0).None? {
      var owners := seq(MAX_CLIENTS, i requires 0 <= i < MAX_CLIENTS => OwnerIn(w, i));
      forall i, j | 0 <= i < j < MAX_CLIENTS ensures owners[i] != owners[j] {
        OwnerSits(w, i);
        OwnerSits(w, j);
      }
      forall i | 0 <= i < MAX_CLIENTS ensures owners[i] < |w.visitors| && owners[i] != v {
        OwnerSits(w, i);
      }
      var all := owners + [v];
      DistinctBelow(all, |w.visitors|);
    }
  }

  function OwnerIn(w: World, i: nat): nat
    requires Shape(w) && i < MAX_CLIENTS
  {
    var fd := w.server.clients[i].fd;
    if fd > 0 then fd - 1 else 0
  }

  lemma OwnerSits(w: World, i: nat)
    requires Inv(w) && i < MAX_CLIENTS && w.server.clients[i].fd != -1
    ensures OwnerIn(w, i) < |w.visitors| && w.places[OwnerIn(w, i)] == At(i)
  {
    assert SlotInOrder(w, i);
  }
}
