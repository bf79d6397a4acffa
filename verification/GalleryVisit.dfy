/** Any number of visitors and the server together, with arbitrary interleaving. */
module GalleryVisit {
  import opened Sums
  import opened GalleryServer
  import opened GalleryVisitor

  datatype Place = NotArrived | At(slot: nat) | TurnedAway | Gone

  datatype World = World(server: Server, visitors: seq<Visitor>, places: seq<Place>)

  datatype Event = Arrive(who: nat) | Act(who: nat, draw: nat)

  function Opening(n: nat): World {
    World(GalleryServer.Start(), seq(n, v => Newcomer()), seq(n, v => NotArrived))
  }

  /** The descriptor of visitor v's connection. */
  function Fd(v: nat): int { v + 1 }

  ghost predicate Shape(w: World) {
    && WellFormed(w.server)
    && |w.places| == |w.visitors|
    && (forall v :: 0 <= v < |w.visitors| ==> |w.visitors[v].visited| == NUM_PAINTINGS)
    && (forall v :: 0 <= v < |w.visitors| && w.places[v].At? ==> w.places[v].slot < MAX_CLIENTS)
  }

  /** What the server answers to visitor v's next message, and the server afterwards. */
  function Exchange(w: World, v: nat, p: nat): (Server, Reply)
    requires Shape(w) && v < |w.visitors| && p < NUM_PAINTINGS && w.places[v].At?
    requires Request(w.visitors[v], v, p).Some?
  {
    Handle(w.server, w.places[v].slot, Request(w.visitors[v], v, p).value)
  }

  predicate Possible(w: World, e: Event)
    requires Shape(w)
  {
    e.who < |w.visitors| &&
    match e
    case Arrive(v) => w.places[v].NotArrived?
    case Act(v, p) => p < NUM_PAINTINGS && w.places[v].At? && Request(w.visitors[v], v, p).Some?
  }

  function Next(w: World, e: Event): World
    requires Shape(w) && Possible(w, e)
  {
    match e
    case Arrive(v) =>
      var r := FreeSlot(w.server.clients, 0);
      World(Accept(w.server, Fd(v)), w.visitors,
            w.places[v := if r.Some? then At(r.value) else TurnedAway])
    case Act(v, p) =>
      var (server, reply) := Exchange(w, v, p);
      World(server, w.visitors[v := React(w.visitors[v], p, reply)],
            if w.visitors[v].phase.Leaving? then w.places[v := Gone] else w.places)
  }

  /** The event is an exchange the server answers with a grant. */
  predicate IsGrant(w: World, e: Event)
    requires Shape(w) && Possible(w, e)
  {
    e.Act? && Granted(Exchange(w, e.who, e.draw).1)
  }

  // --- Counting ---------------------------------------------------------------------------

  function Insiders(vs: seq<Visitor>): (u: seq<nat>)
    ensures |u| == |vs| && forall v :: 0 <= v < |vs| ==> u[v] == if Inside(vs[v]) then 1 else 0
  {
    seq(|vs|, v requires 0 <= v < |vs| => if Inside(vs[v]) then 1 else 0)
  }

  function Viewers(vs: seq<Visitor>, p: int): (u: seq<nat>)
    ensures |u| == |vs| && forall v :: 0 <= v < |vs| ==> u[v] == if Position(vs[v]) == p then 1 else 0
  {
    seq(|vs|, v requires 0 <= v < |vs| => if Position(vs[v]) == p then 1 else 0)
  }

  /** The counters are exact: as many inside as the server thinks, and at each painting too. */
  ghost predicate Exact(w: World)
    requires Shape(w)
  {
    && w.server.current == Total(Insiders(w.visitors))
    && forall p :: 0 <= p < NUM_PAINTINGS ==> w.server.counts[p] == Total(Viewers(w.visitors, p))
  }

  /** Visitor v's connection, in its slot. */
  ghost predicate Seated(w: World, v: nat)
    requires Shape(w) && v < |w.visitors|
  {
    match w.places[v]
    case NotArrived => w.visitors[v] == Newcomer()
    case At(i) =>
      && w.server.clients[i].fd == Fd(v)
      && w.server.clients[i].painting == Position(w.visitors[v])
      && (w.visitors[v].phase.Leaving? ==> w.server.clients[i].sentExit)
      && w.visitors[v].phase != Done
    case TurnedAway => w.visitors[v] == Newcomer()
    case Gone => w.visitors[v].phase == Done
  }

  /** A taken slot belongs to a visitor sitting in it; a free one carries nothing over. */
  ghost predicate SlotInOrder(w: World, i: nat)
    requires Shape(w) && i < MAX_CLIENTS
  {
    var fd := w.server.clients[i].fd;
    if fd == -1 then w.server.clients[i].painting == -1
    else 1 <= fd <= |w.visitors| && w.places[fd - 1] == At(i)
  }

  ghost predicate Inv(w: World) {
    && Shape(w)
    && Exact(w)
    && 0 <= w.server.current <= MAX_VISITORS
    && (forall p :: 0 <= p < NUM_PAINTINGS ==> 0 <= w.server.counts[p] <= MAX_PAINTING_VISITORS)
    && (forall v :: 0 <= v < |w.visitors| ==> Consistent(w.visitors[v]))
    && (forall v :: 0 <= v < |w.visitors| ==> Seated(w, v))
    && (forall i :: 0 <= i < MAX_CLIENTS ==> SlotInOrder(w, i))
  }

  lemma CountChange(vs: seq<Visitor>, v: nat, x: Visitor, p: int)
    requires v < |vs|
    ensures Total(Insiders(vs[v := x])) + (if Inside(vs[v]) then 1 else 0)
         == Total(Insiders(vs)) + (if Inside(x) then 1 else 0)
    ensures Total(Viewers(vs[v := x], p)) + (if Position(vs[v]) == p then 1 else 0)
         == Total(Viewers(vs, p)) + (if Position(x) == p then 1 else 0)
    ensures Inside(vs[v]) ==> Total(Insiders(vs)) > 0
    ensures Position(vs[v]) == p ==> Total(Viewers(vs, p)) > 0
  {
    var a: nat := if Inside(x) then 1 else 0;
    assert Insiders(vs[v := x]) == Insiders(vs)[v := a];
    TotalUpdate(Insiders(vs), v, a);
    var b: nat := if Position(x) == p then 1 else 0;
    assert Viewers(vs[v := x], p) == Viewers(vs, p)[v := b];
    TotalUpdate(Viewers(vs, p), v, b);
  }

  /** No counter is ever lowered below the people it counts: the clamps to zero are idle. */
  lemma ClampsAreIdle(w: World, v: nat)
    requires Inv(w) && v < |w.visitors|
    ensures Inside(w.visitors[v]) ==> w.server.current > 0
    ensures w.visitors[v].phase.Viewing? ==> w.server.counts[w.visitors[v].phase.at] > 0
  {
    CountChange(w.visitors, v, w.visitors[v], Position(w.visitors[v]));
  }

  // --- What one exchange does to the server's numbers ----------------------------------------

  /** The fields of the server that matter to the visitors after visitor v's exchange. */
  ghost predicate Served(w: World, v: nat, t: Server, x: Visitor)
    requires Shape(w) && v < |w.visitors| && w.places[v].At?
  {
    var i := w.places[v].slot;
    && WellFormed(t)
    && t.clients[i].fd == (if x.phase == Done then -1 else Fd(v))
    && t.clients[i].painting == Position(x)
    && (x.phase.Leaving? ==> t.clients[i].sentExit)
    && (forall j :: 0 <= j < MAX_CLIENTS && j != i ==> t.clients[j] == w.server.clients[j])
    && 0 <= t.current <= MAX_VISITORS
    && (forall p :: 0 <= p < NUM_PAINTINGS ==> 0 <= t.counts[p] <= MAX_PAINTING_VISITORS)
    && t.current + (if Inside(w.visitors[v]) then 1 else 0) == w.server.current + (if Inside(x) then 1 else 0)
    && forall p :: 0 <= p < NUM_PAINTINGS ==>
         t.counts[p] + (if Position(w.visitors[v]) == p then 1 else 0)
         == w.server.counts[p] + (if Position(x) == p then 1 else 0)
  }

  lemma AskServes(w: World, v: nat, p: nat)
    requires Inv(w) && Possible(w, Act(v, p)) && (w.visitors[v].phase.Entering? || w.visitors[v].phase.Retrying?)
    ensures Served(w, v, Exchange(w, v, p).0, React(w.visitors[v], p, Exchange(w, v, p).1))
  {
    assert Seated(w, v);
  }

  lemma ViewServes(w: World, v: nat, p: nat)
    requires Inv(w) && Possible(w, Act(v, p)) && w.visitors[v].phase.Touring? && w.visitors[v].left > 0
    ensures Served(w, v, Exchange(w, v, p).0, React(w.visitors[v], p, Exchange(w, v, p).1))
  {
    assert Seated(w, v);
  }

  lemma LeaveServes(w: World, v: nat, p: nat)
    requires Inv(w) && Possible(w, Act(v, p)) && w.visitors[v].phase.Viewing?
    ensures Served(w, v, Exchange(w, v, p).0, React(w.visitors[v], p, Exchange(w, v, p).1))
    ensures Exchange(w, v, p).1 == LeftPainting(v)
  {
    ClampsAreIdle(w, v);
    assert Seated(w, v);
  }

  lemma ExitServes(w: World, v: nat, p: nat)
    requires Inv(w) && Possible(w, Act(v, p)) && w.visitors[v].phase.Touring? && w.visitors[v].left == 0
    ensures Served(w, v, Exchange(w, v, p).0, React(w.visitors[v], p, Exchange(w, v, p).1))
  {
    ClampsAreIdle(w, v);
    assert Seated(w, v);
  }

  lemma CloseServes(w: World, v: nat, p: nat)
    requires Inv(w) && Possible(w, Act(v, p)) && w.visitors[v].phase.Leaving?
    ensures Served(w, v, Exchange(w, v, p).0, React(w.visitors[v], p, Exchange(w, v, p).1))
  {
    assert Seated(w, v);
  }

  lemma ExchangeServes(w: World, v: nat, p: nat)
    requires Inv(w) && Possible(w, Act(v, p))
    ensures Served(w, v, Exchange(w, v, p).0, React(w.visitors[v], p, Exchange(w, v, p).1))
  {
    match w.visitors[v].phase
    case Entering => AskServes(w, v, p);
    case Retrying => AskServes(w, v, p);
    case Touring => if w.visitors[v].left > 0 { ViewServes(w, v, p); } else { ExitServes(w, v, p); }
    case Viewing(_) => LeaveServes(w, v, p);
    case Leaving => CloseServes(w, v, p);
    case Done =>
  }

  lemma ActKeepsInv(w: World, v: nat, p: nat)
    requires Inv(w) && Possible(w, Act(v, p))
    ensures Inv(Next(w, Act(v, p)))
  {
    ExchangeServes(w, v, p);
    var (t, reply) := Exchange(w, v, p);
    var x := React(w.visitors[v], p, reply);
    ReactConsistent(w.visitors[v], v, p, reply);
    SeatingKept(w, v, t, x);
  }

  /** The world after visitor v has become x and the server t. */
  function Onward(w: World, v: nat, t: Server, x: Visitor): World
    requires v < |w.visitors| == |w.places|
  {
    World(t, w.visitors[v := x], if w.visitors[v].phase.Leaving? then w.places[v := Gone] else w.places)
  }

  lemma SeatsKept(w: World, v: nat, t: Server, x: Visitor)
    requires Inv(w) && v < |w.visitors| && w.places[v].At?
    requires Served(w, v, t, x) && Consistent(x)
    requires x.phase == Done <==> w.visitors[v].phase == Leaving
    ensures Shape(Onward(w, v, t, x))
    ensures forall y :: 0 <= y < |w.visitors| ==> Seated(Onward(w, v, t, x), y)
  {
    var u := Onward(w, v, t, x);
    assert Seated(w, v);
    forall y | 0 <= y < |u.visitors| ensures Seated(u, y) {
      assert Seated(w, y);
    }
  }

  lemma SlotsKept(w: World, v: nat, t: Server, x: Visitor)
    requires Inv(w) && v < |w.visitors| && w.places[v].At?
    requires Served(w, v, t, x) && Consistent(x)
    requires x.phase == Done <==> w.visitors[v].phase == Leaving
    ensures Shape(Onward(w, v, t, x))
    ensures forall j :: 0 <= j < MAX_CLIENTS ==> SlotInOrder(Onward(w, v, t, x), j)
  {
    var u := Onward(w, v, t, x);
    assert Seated(w, v);
    forall j | 0 <= j < MAX_CLIENTS ensures SlotInOrder(u, j) {
      assert SlotInOrder(w, j);
    }
  }

  lemma SeatingKept(w: World, v: nat, t: Server, x: Visitor)
    requires Inv(w) && v < |w.visitors| && w.places[v].At?
    requires Served(w, v, t, x) && Consistent(x)
    requires x.phase == Done <==> w.visitors[v].phase == Leaving
    ensures Inv(Onward(w, v, t, x))
  {
    var u := Onward(w, v, t, x);
    SeatsKept(w, v, t, x);
    SlotsKept(w, v, t, x);
    CountChange(w.visitors, v, x, 0);
    forall p | 0 <= p < NUM_PAINTINGS ensures u.server.counts[p] == Total(Viewers(u.visitors, p)) {
      CountChange(w.visitors, v, x, p);
    }
  }

  lemma ArriveKeepsInv(w: World, v: nat)
    requires Inv(w) && Possible(w, Arrive(v))
    ensures Inv(Next(w, Arrive(v)))
  {
    var u := Next(w, Arrive(v));
    var r := FreeSlot(w.server.clients, 0);
    if r.Some? {
      assert SlotInOrder(w, r.value);
    }
    forall y | 0 <= y < |u.visitors| ensures Seated(u, y) {
      assert Seated(w, y);
      assert Seated(w, v);
    }
    forall j | 0 <= j < MAX_CLIENTS ensures SlotInOrder(u, j) {
      assert SlotInOrder(w, j);
    }
  }

  /** Every message of a visitor is answered, but for the end of the connection: ENTER is granted if
      and only if fewer than 25 visitors are inside, VIEW if and only if fewer than 5 stand there. */
  lemma EveryRequestIsAnswered(w: World, v: nat, p: nat)
    requires Inv(w) && Possible(w, Act(v, p))
    ensures Exchange(w, v, p).1 ==
      match w.visitors[v].phase
      case Entering => if Total(Insiders(w.visitors)) < 25 then EnterOk(v) else EnterWait(v)
      case Retrying => if Total(Insiders(w.visitors)) < 25 then EnterOk(v) else EnterWait(v)
      case Touring =>
        if w.visitors[v].left == 0 then ExitOk(v)
        else if Total(Viewers(w.visitors, p)) < 5 then ViewOk(v, p)
        else ViewWait(v, p)
      case Viewing(_) => LeftPainting(v)
      case Leaving => NoReply
      case Done => NoReply
  {
    assert Consistent(w.visitors[v]);
    if w.visitors[v].phase.Viewing? {
      LeaveServes(w, v, p);
    }
  }

  /** A refusal changes nothing for a visitor, except that he knows he must wait at the door. */
  lemma RefusalsChangeNothing(v: Visitor, id: int, p: nat, reply: Reply)
    requires Consistent(v) && p < NUM_PAINTINGS && Request(v, id, p).Some?
    requires reply.EnterWait? || reply.ViewWait?
    requires v.phase.Entering? || v.phase.Retrying? ==> reply.EnterWait?
    requires v.phase.Entering? || v.phase.Retrying? || (v.phase.Touring? && v.left > 0)
    ensures React(v, p, reply) == if v.phase.Touring? then v else v.(phase := Retrying)
  {
  }

  lemma NextKeepsInv(w: World, e: Event)
    requires Inv(w) && Possible(w, e)
    ensures Inv(Next(w, e))
  {
    match e
    case Arrive(v) => ArriveKeepsInv(w, v);
    case Act(v, p) => ActKeepsInv(w, v, p);
  }

  lemma OpeningInv(n: nat)
    ensures Inv(Opening(n))
  {
    var w := Opening(n);
    NewcomerConsistent();
    TotalZero(Insiders(w.visitors));
    forall p | 0 <= p < NUM_PAINTINGS ensures Total(Viewers(w.visitors, p)) == 0 {
      TotalZero(Viewers(w.visitors, p));
    }
  }
}
