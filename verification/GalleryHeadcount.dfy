/** When the number of visitors is exact. The server keeps no record of who was let in: it only
    counts, so a client that was not let in can lower the number by leaving. */
module GalleryHeadcount {
  import opened Sums
  import opened GalleryServer
  import opened GalleryBook

  function Ones(slots: seq<Entry>): (u: seq<nat>)
    ensures |u| == |slots| && forall i :: 0 <= i < |slots| ==> u[i] == if slots[i].inside then 1 else 0
  {
    seq(|slots|, i requires 0 <= i < |slots| => if slots[i].inside then 1 else 0)
  }

  /** How many clients have been let in and are neither out nor disconnected. */
  function Headcount(slots: seq<Entry>): nat {
    Total(Ones(slots))
  }

  lemma HeadcountChange(slots: seq<Entry>, i: nat, c: Entry)
    requires i < |slots|
    ensures Headcount(slots[i := c]) + (if slots[i].inside then 1 else 0)
         == Headcount(slots) + (if c.inside then 1 else 0)
    ensures slots[i].inside ==> Headcount(slots) > 0
  {
    var x: nat := if c.inside then 1 else 0;
    assert Ones(slots[i := c]) == Ones(slots)[i := x];
    TotalUpdate(Ones(slots), i, x);
  }

  predicate KeepsHeadcount(b: Book, e: Input)
    requires Regular(b) && Possible(b, e)
  {
    match e
    case Receive(i, Closed) =>
      if b.slots[i].inside then CountedOut(b.slots[i]) else b.visitors == 0 || !CountedOut(b.slots[i])
    case Receive(i, Command(_, Enter, _)) => b.visitors < 25 ==> !b.slots[i].inside
    case Receive(i, Command(_, Exit, _)) => b.slots[i].inside || b.visitors == 0
    case _ => true
  }

  /** Whatever the client, the number of visitors stays exact over an event if and only if
      nobody already inside is let in again, nobody outside sends EXIT while the number is
      positive, and a connection that ends is counted out exactly if its client is inside. */
  lemma HeadcountStaysExactIff(b: Book, e: Input)
    requires InOrder(b) && Possible(b, e) && b.visitors == Headcount(b.slots)
    ensures Note(b, e).visitors == Headcount(Note(b, e).slots) <==> KeepsHeadcount(b, e)
  {
    match e
    case Connect(fd) =>
      var r := Vacant(b.slots, 0);
      if r < 300 {
        HeadcountChange(b.slots, r, Note(b, e).slots[r]);
      }
    case Receive(i, m) => HeadcountChange(b.slots, i, Note(b, e).slots[i]);
  }

  // --- Whole runs -----------------------------------------------------------------------------------------

  /** The number is exact now and after every event. */
  ghost predicate ExactThroughout(b: Book, events: seq<Input>)
    requires Regular(b) && Keep(b, events).Some?
    decreases |events|
  {
    if events == [] then b.visitors == Headcount(b.slots)
    else
      NoteRegular(b, events[0]);
      b.visitors == Headcount(b.slots) && ExactThroughout(Note(b, events[0]), events[1..])
  }

  /** No event is one that spoils the number. */
  ghost predicate AllKeep(b: Book, events: seq<Input>)
    requires Regular(b) && Keep(b, events).Some?
    decreases |events|
  {
    if events == [] then true
    else
      NoteRegular(b, events[0]);
      KeepsHeadcount(b, events[0]) && AllKeep(Note(b, events[0]), events[1..])
  }

  lemma {:induction false} ExactThroughoutIff(b: Book, events: seq<Input>)
    requires InOrder(b) && b.visitors == Headcount(b.slots) && Keep(b, events).Some?
    ensures ExactThroughout(b, events) <==> AllKeep(b, events)
    decreases |events|
  {
    if events != [] {
      NoteInOrder(b, events[0]);
      HeadcountStaysExactIff(b, events[0]);
      if KeepsHeadcount(b, events[0]) {
        ExactThroughoutIff(Note(b, events[0]), events[1..]);
      }
    }
  }

  lemma NobodyAtFirst()
    ensures InOrder(Blank()) && Headcount(Blank().slots) == 0
  {
    TotalZero(Ones(Blank().slots));
  }

  /** In every run of arbitrary clients from the start, the number of visitors is exact
      throughout if and only if no event is one that spoils it. */
  lemma HeadcountExactIff(events: seq<Input>)
    requires Serve(Start(), events).Some?
    ensures Keep(Blank(), events).Some? && Serve(Start(), events).value.current == Keep(Blank(), events).value.visitors
    ensures ExactThroughout(Blank(), events) <==> AllKeep(Blank(), events)
  {
    ServerFollowsBook(events);
    NobodyAtFirst();
    ExactThroughoutIff(Blank(), events);
  }

  // --- A run that spoils it ---------------------------------------------------------------------------------

  /** The first k slots hold visitors inside, the others nobody. */
  ghost predicate Filled(b: Book, k: nat) {
    && Regular(b) && k <= 25 && b.visitors == k
    && (forall i :: 0 <= i < k ==> b.slots[i].connected && b.slots[i].inside)
    && (forall i :: k <= i < 300 ==> b.slots[i] == Blank().slots[i])
  }

  /** Another client connects and asks to be let in. */
  lemma GoEnter(events: seq<Input>, b: Book, k: nat) returns (more: seq<Input>, c: Book)
    requires Kept(events, b) && Filled(b, k)
    ensures Kept(more, c)
    ensures c.slots[k] == Entry(true, false, k < 25, false, k + 1, false, -1)
    ensures k < 25 ==> Filled(c, k + 1)
    ensures k == 25 ==> c.visitors == k && c.slots == b.slots[k := c.slots[k]]
  {
    var r := Vacant(b.slots, 0);
    assert !b.slots[k].connected && r == k;
    more, c := Go(events, b, Connect(k + 1));
    more, c := Go(more, c, Receive(k, Command(k + 1, Enter, -1)));
  }

  lemma {:induction false} Fill(k: nat) returns (events: seq<Input>, b: Book)
    requires k <= 25
    ensures Kept(events, b) && Filled(b, k)
  {
    if k == 0 {
      events, b := [], Blank();
    } else {
      events, b := Fill(k - 1);
      events, b := GoEnter(events, b, k - 1);
    }
  }

  lemma {:induction false} FirstOnes(slots: seq<Entry>, k: nat)
    requires k <= |slots| && forall i :: 0 <= i < |slots| ==> slots[i].inside == (i < k)
    ensures Headcount(slots) == k
  {
    if k == 0 {
      TotalZero(Ones(slots));
    } else {
      assert Ones(slots)[1..] == Ones(slots[1..]);
      FirstOnes(slots[1..], k - 1);
    }
  }

  /** A client that is told to wait in front of a full gallery and hangs up: the server counts
      24, and 25 are inside. */
  lemma WaitingClientCountsOut() returns (events: seq<Input>, s: Server, b: Book)
    ensures Serve(Start(), events) == Some(s) && Keep(Blank(), events) == Some(b)
    ensures s.current == 24 && Headcount(b.slots) == 25
  {
    events, b := Fill(25);
    events, b := GoEnter(events, b, 25);
    events, b := Go(events, b, Receive(25, Closed));
    FirstOnes(b.slots, 25);
    ServerFollowsBook(events);
    s := Serve(Start(), events).value;
  }
}
