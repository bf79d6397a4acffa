/** When the painting counters are exact. They are not so for arbitrary clients: a slot keeps
    the painting of a client that vanished, and a VIEW does not give up the previous painting. */
module GalleryCounting {
  import opened Sums
  import opened GalleryServer
  import opened GalleryBook

  predicate StandsAt(c: Entry, p: nat) {
    c.connected && c.at == p
  }

  function Standing(slots: seq<Entry>, p: nat): (u: seq<nat>)
    ensures |u| == |slots|
    ensures forall i :: 0 <= i < |slots| ==> u[i] == if StandsAt(slots[i], p) then 1 else 0
  {
    seq(|slots|, i requires 0 <= i < |slots| => if StandsAt(slots[i], p) then 1 else 0)
  }

  /** The number of connected clients in front of painting p. */
  function Crowd(slots: seq<Entry>, p: nat): nat {
    Total(Standing(slots, p))
  }

  ghost predicate Exact(b: Book)
    requires Regular(b)
  {
    forall p :: 0 <= p < 5 ==> b.viewers[p] == Crowd(b.slots, p)
  }

  lemma CrowdChange(slots: seq<Entry>, i: nat, c: Entry, p: nat)
    requires i < |slots|
    ensures Crowd(slots[i := c], p) + (if StandsAt(slots[i], p) then 1 else 0)
         == Crowd(slots, p) + (if StandsAt(c, p) then 1 else 0)
    ensures StandsAt(slots[i], p) ==> Crowd(slots, p) > 0
  {
    var x: nat := if StandsAt(c, p) then 1 else 0;
    assert Standing(slots[i := c], p) == Standing(slots, p)[i := x];
    TotalUpdate(Standing(slots, p), i, x);
  }

  /** The slot the next connection gets carries no painting over, and a granted VIEW comes from a
      client that stands nowhere. */
  predicate KeepsCounts(b: Book, e: Input)
    requires Regular(b) && Possible(b, e)
  {
    match e
    case Connect(fd) => var r := Vacant(b.slots, 0); r < 300 ==> b.slots[r].at == -1
    case Receive(i, m) => Answer(b, i, m).ViewOk? ==> b.slots[i].at == -1
  }

  /** Counter p has moved as slot i's becoming c demands. */
  predicate Follows(b: Book, c: Book, i: nat, p: nat)
    requires Regular(b) && Regular(c) && i < 300 && p < 5
  {
    c.viewers[p] + (if StandsAt(b.slots[i], p) then 1 else 0)
      == b.viewers[p] + (if StandsAt(c.slots[i], p) then 1 else 0)
  }

  lemma ExactAfter(b: Book, c: Book, i: nat)
    requires Regular(b) && Regular(c) && Exact(b) && i < 300
    requires c.slots == b.slots[i := c.slots[i]]
    ensures Exact(c) <==> forall p :: 0 <= p < 5 ==> Follows(b, c, i, p)
  {
    forall p | 0 <= p < 5
      ensures c.viewers[p] == Crowd(c.slots, p) <==> Follows(b, c, i, p)
    {
      CrowdChange(b.slots, i, c.slots[i], p);
    }
  }

  lemma ConnectCounts(b: Book, fd: int)
    requires Regular(b) && Exact(b) && fd > 0
    ensures Regular(Note(b, Connect(fd)))
    ensures Exact(Note(b, Connect(fd))) <==> KeepsCounts(b, Connect(fd))
  {
    var e := Connect(fd);
    NoteRegular(b, e);
    var i, c := Vacant(b.slots, 0), Note(b, e);
    if i < 300 {
      ExactAfter(b, c, i);
      assert b.slots[i].at != -1 ==> !Follows(b, c, i, b.slots[i].at);
    }
  }

  lemma MessageCounts(b: Book, i: nat, m: Message)
    requires Regular(b) && Exact(b) && i < 300 && b.slots[i].connected
    ensures Regular(Note(b, Receive(i, m)))
    ensures Exact(Note(b, Receive(i, m))) <==> KeepsCounts(b, Receive(i, m))
  {
    var e := Receive(i, m);
    NoteRegular(b, e);
    var c, p := Note(b, e), b.slots[i].at;
    ExactAfter(b, c, i);
    if p != -1 {
      CrowdChange(b.slots, i, b.slots[i], p);
      assert b.viewers[p] > 0;
    }
    if Answer(b, i, m).ViewOk? && p != -1 {
      assert !Follows(b, c, i, p);
    }
  }

  /** The counters stay exact over an event if and only if the event is not a connection
      into a slot with a painting left over, nor a granted VIEW by a client that still
      stands somewhere. */
  lemma CountsStayExactIff(b: Book, e: Input)
    requires Regular(b) && Exact(b) && Possible(b, e)
    ensures Regular(Note(b, e))
    ensures Exact(Note(b, e)) <==> KeepsCounts(b, e)
  {
    match e
    case Connect(fd) => ConnectCounts(b, fd);
    case Receive(i, m) => MessageCounts(b, i, m);
  }

  // --- Whole runs -----------------------------------------------------------------------------------------

  /** The painting counters are exact now and after every event. */
  ghost predicate ExactThroughout(b: Book, events: seq<Input>)
    requires Regular(b) && Keep(b, events).Some?
    decreases |events|
  {
    if events == [] then Exact(b)
    else
      NoteRegular(b, events[0]);
      Exact(b) && ExactThroughout(Note(b, events[0]), events[1..])
  }

  /** No event is one that spoils them. */
  ghost predicate AllKeep(b: Book, events: seq<Input>)
    requires Regular(b) && Keep(b, events).Some?
    decreases |events|
  {
    if events == [] then true
    else
      NoteRegular(b, events[0]);
      KeepsCounts(b, events[0]) && AllKeep(Note(b, events[0]), events[1..])
  }

  lemma {:induction false} ExactThroughoutIff(b: Book, events: seq<Input>)
    requires Regular(b) && Exact(b) && Keep(b, events).Some?
    ensures ExactThroughout(b, events) <==> AllKeep(b, events)
    decreases |events|
  {
    if events != [] {
      CountsStayExactIff(b, events[0]);
      if KeepsCounts(b, events[0]) {
        ExactThroughoutIff(Note(b, events[0]), events[1..]);
      }
    }
  }

  /** In every run of arbitrary clients from the start, the painting counters are exact
      throughout if and only if no event is one that spoils them. */
  lemma CountsExactIff(events: seq<Input>)
    requires Serve(Start(), events).Some?
    ensures Keep(Blank(), events).Some? && Serve(Start(), events).value.counts == Keep(Blank(), events).value.viewers
    ensures ExactThroughout(Blank(), events) <==> AllKeep(Blank(), events)
  {
    ServerFollowsBook(events);
    forall p | 0 <= p < 5 ensures Crowd(Blank().slots, p) == 0 {
      TotalZero(Standing(Blank().slots, p));
    }
    ExactThroughoutIff(Blank(), events);
  }

  /** A client that vanishes in front of painting 0 and one that gets its slot and vanishes
      too: the third client is still there, but the counter says nobody is. */
  lemma VanishedClientsMiscount() returns (events: seq<Input>, s: Server, b: Book)
    ensures events == [
        Connect(4), Receive(0, Command(1, View, 0)),
        Connect(5), Receive(1, Command(2, View, 0)),
        Receive(0, Closed), Connect(6), Receive(0, Closed)]
    ensures Serve(Start(), events) == Some(s) && Keep(Blank(), events) == Some(b)
    ensures WellFormed(s) && s.counts[0] == 0 && b.slots[1].connected && b.slots[1].at == 0
  {
    events, b := [], Blank();
    events, b := Go(events, b, Connect(4));
    events, b := Go(events, b, Receive(0, Command(1, View, 0)));
    events, b := Go(events, b, Connect(5));
    events, b := Go(events, b, Receive(1, Command(2, View, 0)));
    events, b := Go(events, b, Receive(0, Closed));
    events, b := Go(events, b, Connect(6));
    events, b := Go(events, b, Receive(0, Closed));
    ServerFollowsBook(events);
    s := Serve(Start(), events).value;
  }
}
