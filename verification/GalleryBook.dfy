/** What can be known of the gallery server from the messages and replies alone. A book is kept of
    them; it says which connections are open and what each has done, and the server is proved
    to follow the book: same counters, same slots, same replies. */
module GalleryBook {
  import opened Sums
  import opened GalleryServer

  /** One slot: is a connection open there, has it sent MONITOR, and has it been let in? What was
      said in the slot before is not forgotten when a connection ends: whether anybody sent
      MONITOR there, the last visitor number, whether anybody left with EXIT, and the painting. */
  datatype Entry = Entry(
    connected: bool,
    asked: bool,
    inside: bool,
    monitor: bool,
    lastId: int,
    exited: bool,
    at: int)

  datatype Book = Book(slots: seq<Entry>, visitors: int, viewers: seq<int>)

  function Blank(): Book {
    Book(seq(300, i => Entry(false, false, false, false, -1, false, -1)), 0, [0, 0, 0, 0, 0])
  }

  predicate Regular(b: Book) {
    |b.slots| == 300 && |b.viewers| == 5 && forall i :: 0 <= i < 300 ==> -1 <= b.slots[i].at < 5
  }

  predicate Possible(b: Book, e: Input) {
    match e
    case Connect(fd) => fd > 0
    case Receive(i, m) => i < |b.slots| && b.slots[i].connected
  }

  /** The first slot from k on that is not in use. */
  function Vacant(slots: seq<Entry>, k: nat): (r: nat)
    requires k <= |slots|
    ensures k <= r <= |slots|
    ensures r < |slots| ==> !slots[r].connected
    ensures forall i :: k <= i < r ==> slots[i].connected
    decreases |slots| - k
  {
    if k == |slots| || !slots[k].connected then k else Vacant(slots, k + 1)
  }

  /** The reply that is due: ENTER is granted below 25 visitors, VIEW below 5 viewers. */
  function Answer(b: Book, i: nat, m: Message): Reply
    requires Regular(b) && i < 300
  {
    match m
    case Command(id, Enter, _) => if b.visitors < 25 then EnterOk(id) else EnterWait(id)
    case Command(id, View, p) =>
      if p < 0 || p > 4 then NoReply else if b.viewers[p] < 5 then ViewOk(id, p) else ViewWait(id, p)
    case Command(id, LeavePainting, _) => if b.slots[i].at == -1 then NoReply else LeftPainting(id)
    case Command(id, Exit, _) => ExitOk(id)
    case _ => NoReply
  }

  function Minus(x: int): int {
    if x > 0 then x - 1 else 0
  }

  /** What a reply tells about the connection it goes to. */
  function Told(c: Entry, reply: Reply): Entry {
    match reply
    case EnterOk(_) => c.(inside := true)
    case ViewOk(_, p) => c.(at := p)
    case LeftPainting(_) => c.(at := -1)
    case ExitOk(_) => c.(inside := false, exited := true, at := -1)
    case _ => c
  }

  function Said(c: Entry, m: Message): Entry {
    match m
    case Closed => c.(connected := false, asked := false, inside := false)
    case MonitorText => c.(asked := true, monitor := true)
    case Unparsed => c
    case Command(id, _, _) => c.(lastId := id)
  }

  /** A connection that ends is counted out when its slot has a visitor number and neither MONITOR
      nor EXIT on record. */
  predicate CountedOut(c: Entry) {
    c.lastId != -1 && !c.monitor && !c.exited
  }

  function VisitorsAfter(b: Book, c: Entry, m: Message, reply: Reply): int {
    if reply.EnterOk? then b.visitors + 1
    else if reply.ExitOk? || (m.Closed? && CountedOut(c)) then Minus(b.visitors)
    else b.visitors
  }

  function ViewersAfter(b: Book, c: Entry, m: Message, reply: Reply): seq<int>
    requires |b.viewers| == 5 && -1 <= c.at < 5 && (reply.ViewOk? ==> 0 <= reply.painting < 5)
  {
    if reply.ViewOk? then b.viewers[reply.painting := b.viewers[reply.painting] + 1]
    else if (reply.LeftPainting? || reply.ExitOk? || m.Closed?) && c.at != -1 then
      b.viewers[c.at := Minus(b.viewers[c.at])]
    else b.viewers
  }

  function Note(b: Book, e: Input): Book
    requires Regular(b) && Possible(b, e)
  {
    match e
    case Connect(fd) =>
      var i := Vacant(b.slots, 0);
      if i < 300 then b.(slots := b.slots[i := b.slots[i].(connected := true)]) else b
    case Receive(i, m) =>
      var reply := Answer(b, i, m);
      var c := b.slots[i];
      Book(b.slots[i := Told(Said(c, m), reply)], VisitorsAfter(b, c, m, reply), ViewersAfter(b, c, m, reply))
  }

  lemma NoteRegular(b: Book, e: Input)
    requires Regular(b) && Possible(b, e)
    ensures Regular(Note(b, e))
  {
  }

  function Keep(b: Book, events: seq<Input>): (r: Option<Book>)
    requires Regular(b)
    ensures r.Some? ==> Regular(r.value)
    decreases |events|
  {
    if events == [] then Some(b)
    else if !Possible(b, events[0]) then None
    else
      NoteRegular(b, events[0]);
      Keep(Note(b, events[0]), events[1..])
  }

  // --- The server follows the book --------------------------------------------------------------------------

  predicate SlotAgrees(c: Slot, d: Entry) {
    && (c.fd == -1 || c.fd > 0)
    && (c.fd != -1) == d.connected
    && c.visitorId == d.lastId
    && c.painting == d.at
    && c.isMonitor == d.monitor
    && c.sentExit == d.exited
  }

  ghost predicate Agrees(s: Server, b: Book) {
    && WellFormed(s) && Regular(b)
    && s.current == b.visitors
    && s.counts == b.viewers
    && (forall i :: 0 <= i < 300 ==> SlotAgrees(s.clients[i], b.slots[i]))
  }

  /** The limits and what the open connections must have done to be where they are. */
  ghost predicate InOrder(b: Book) {
    && Regular(b)
    && 0 <= b.visitors <= 25
    && (forall p :: 0 <= p < 5 ==> 0 <= b.viewers[p] <= 5)
    && (forall i :: 0 <= i < 300 && b.slots[i].asked ==> b.slots[i].connected && b.slots[i].monitor)
    && (forall i :: 0 <= i < 300 && b.slots[i].inside ==> b.slots[i].connected)
  }

  lemma NoteInOrder(b: Book, e: Input)
    requires InOrder(b) && Possible(b, e)
    ensures InOrder(Note(b, e))
  {
    NoteRegular(b, e);
  }

  lemma FreeIsVacant(s: Server, b: Book)
    requires Agrees(s, b)
    ensures match FreeSlot(s.clients, 0) case None => Vacant(b.slots, 0) == 300 case Some(i) => Vacant(b.slots, 0) == i
  {
    var v, r := Vacant(b.slots, 0), FreeSlot(s.clients, 0);
    if v < 300 {
      assert SlotAgrees(s.clients[v], b.slots[v]);
    }
    if r.Some? {
      assert SlotAgrees(s.clients[r.value], b.slots[r.value]);
    }
  }

  lemma ConnectFollows(s: Server, b: Book, fd: int)
    requires Agrees(s, b) && fd > 0
    ensures Agrees(Accept(s, fd), Note(b, Connect(fd)))
  {
    FreeIsVacant(s, b);
    NoteRegular(b, Connect(fd));
    var t, c := Accept(s, fd), Note(b, Connect(fd));
    forall j | 0 <= j < 300 ensures SlotAgrees(t.clients[j], c.slots[j]) {
      assert SlotAgrees(s.clients[j], b.slots[j]);
    }
  }

  lemma OthersAgree(s: Server, b: Book, t: Server, c: Book, i: nat)
    requires Agrees(s, b) && WellFormed(t) && Regular(c) && i < 300
    requires t.clients == s.clients[i := t.clients[i]] && c.slots == b.slots[i := c.slots[i]]
    requires SlotAgrees(t.clients[i], c.slots[i])
    requires t.current == c.visitors && t.counts == c.viewers
    ensures Agrees(t, c)
  {
    forall j | 0 <= j < 300 ensures SlotAgrees(t.clients[j], c.slots[j]) {
      assert SlotAgrees(s.clients[j], b.slots[j]);
    }
  }

  lemma CommandFollows(s: Server, b: Book, i: nat, id: int, action: Action, p: int)
    requires Agrees(s, b) && i < 300 && b.slots[i].connected
    ensures var m := Command(id, action, p);
      && Handle(s, i, m).1 == Answer(b, i, m)
      && Agrees(Handle(s, i, m).0, Note(b, Receive(i, m)))
  {
    var m := Command(id, action, p);
    var t, c := Handle(s, i, m).0, Note(b, Receive(i, m));
    NoteRegular(b, Receive(i, m));
    assert SlotAgrees(s.clients[i], b.slots[i]);
    ObeyWellFormed(SetSlot(s, i, s.clients[i].(visitorId := id)), i, id, action, p);
    OthersAgree(s, b, t, c, i);
  }

  lemma CloseFollows(s: Server, b: Book, i: nat)
    requires Agrees(s, b) && i < 300 && b.slots[i].connected
    ensures Agrees(Disconnect(s, i), Note(b, Receive(i, Closed)))
  {
    NoteRegular(b, Receive(i, Closed));
    assert SlotAgrees(s.clients[i], b.slots[i]);
    OthersAgree(s, b, Disconnect(s, i), Note(b, Receive(i, Closed)), i);
  }

  /** Each message is answered, and changes counters and slots, as the book says. */
  lemma HandleFollows(s: Server, b: Book, i: nat, m: Message)
    requires Agrees(s, b) && i < 300 && b.slots[i].connected
    ensures Handle(s, i, m).1 == Answer(b, i, m)
    ensures Agrees(Handle(s, i, m).0, Note(b, Receive(i, m)))
  {
    assert SlotAgrees(s.clients[i], b.slots[i]);
    match m
    case Closed => CloseFollows(s, b, i);
    case Command(id, action, p) => CommandFollows(s, b, i, id, action, p);
    case MonitorText => OthersAgree(s, b, Handle(s, i, m).0, Note(b, Receive(i, m)), i);
    case Unparsed => OthersAgree(s, b, s, Note(b, Receive(i, m)), i);
  }

  lemma AfterFollows(s: Server, b: Book, e: Input)
    requires Agrees(s, b)
    ensures Acceptable(s, e) <==> Possible(b, e)
    ensures Acceptable(s, e) ==> Agrees(After(s, e), Note(b, e))
  {
    match e
    case Connect(fd) =>
      if fd > 0 {
        ConnectFollows(s, b, fd);
      }
    case Receive(i, m) =>
      if i < 300 {
        assert SlotAgrees(s.clients[i], b.slots[i]);
        if b.slots[i].connected {
          HandleFollows(s, b, i, m);
        }
      }
  }

  // --- What the monitors are told ----------------------------------------------------------------------------

  /** Every open connection that has sent MONITOR was last told the present numbers, and nothing is
      told where nobody ever sent MONITOR. */
  ghost predicate Informed(s: Server, b: Book)
    requires Agrees(s, b)
  {
    forall i :: 0 <= i < 300 ==>
      && (b.slots[i].asked ==> s.links[i].shown == Some([b.visitors] + b.viewers))
      && (s.links[i].shown.Some? ==> b.slots[i].monitor)
  }

  /** Everybody who listens has just been told. */
  ghost predicate Announced(s: Server, t: Server) {
    && |s.links| == |t.links| == |t.clients|
    && forall i :: 0 <= i < |t.links| ==>
         t.links[i] == if Listens(t.clients[i]) then Link(Some(Status(t))) else s.links[i]
  }

  lemma AnnouncedInforms(s: Server, b: Book, t: Server, c: Book)
    requires InOrder(b) && InOrder(c) && Agrees(s, b) && Agrees(t, c) && Informed(s, b) && Announced(s, t)
    requires forall i :: 0 <= i < 300 && b.slots[i].monitor ==> c.slots[i].monitor
    ensures Informed(t, c)
  {
    forall i | 0 <= i < 300
      ensures c.slots[i].asked ==> t.links[i].shown == Some([c.visitors] + c.viewers)
      ensures t.links[i].shown.Some? ==> c.slots[i].monitor
    {
      assert SlotAgrees(t.clients[i], c.slots[i]);
    }
  }

  /** The messages after which the numbers are sent out, whether they changed or not. */
  predicate Loud(b: Book, i: nat, m: Message)
    requires i < |b.slots|
  {
    match m
    case Closed => true
    case MonitorText => true
    case Unparsed => false
    case Command(_, action, p) =>
      action == Enter || action == Exit || (action == View && 0 <= p < 5)
      || (action == LeavePainting && b.slots[i].at != -1)
  }

  /** After a loud message everybody who listens is told; after another nothing is sent, and no
      counter has changed. */
  lemma HandleAnnounces(s: Server, b: Book, i: nat, m: Message)
    requires Agrees(s, b) && i < 300 && b.slots[i].connected
    ensures var t := Handle(s, i, m).0;
      if Loud(b, i, m) then Announced(s, t)
      else t.links == s.links && t.current == s.current && t.counts == s.counts
  {
    assert SlotAgrees(s.clients[i], b.slots[i]);
  }

  lemma SilenceInforms(s: Server, b: Book, t: Server, c: Book)
    requires Agrees(s, b) && Agrees(t, c) && Informed(s, b)
    requires t.links == s.links && t.current == s.current && t.counts == s.counts
    requires forall i :: 0 <= i < 300 ==> c.slots[i].asked == b.slots[i].asked
    requires forall i :: 0 <= i < 300 && b.slots[i].monitor ==> c.slots[i].monitor
    ensures Informed(t, c)
  {
  }

  lemma HandleInforms(s: Server, b: Book, i: nat, m: Message)
    requires InOrder(b) && Agrees(s, b) && Informed(s, b) && i < 300 && b.slots[i].connected
    ensures Agrees(Handle(s, i, m).0, Note(b, Receive(i, m)))
    ensures Informed(Handle(s, i, m).0, Note(b, Receive(i, m)))
  {
    HandleFollows(s, b, i, m);
    NoteInOrder(b, Receive(i, m));
    var t, c := Handle(s, i, m).0, Note(b, Receive(i, m));
    HandleAnnounces(s, b, i, m);
    if Loud(b, i, m) {
      AnnouncedInforms(s, b, t, c);
    } else {
      SilenceInforms(s, b, t, c);
    }
  }

  lemma ConnectInforms(s: Server, b: Book, fd: int)
    requires InOrder(b) && Agrees(s, b) && Informed(s, b) && fd > 0
    ensures Agrees(Accept(s, fd), Note(b, Connect(fd)))
    ensures Informed(Accept(s, fd), Note(b, Connect(fd)))
  {
    ConnectFollows(s, b, fd);
    FreeIsVacant(s, b);
  }

  lemma AfterInforms(s: Server, b: Book, e: Input)
    requires InOrder(b) && Agrees(s, b) && Informed(s, b) && Acceptable(s, e)
    ensures Possible(b, e) && Agrees(After(s, e), Note(b, e)) && Informed(After(s, e), Note(b, e))
  {
    AfterFollows(s, b, e);
    match e
    case Connect(fd) => ConnectInforms(s, b, fd);
    case Receive(i, m) => HandleInforms(s, b, i, m);
  }

  // --- Whole runs ---------------------------------------------------------------------------------------------

  lemma {:induction false} RunFollows(s: Server, b: Book, events: seq<Input>)
    requires InOrder(b) && Agrees(s, b) && Informed(s, b)
    ensures Serve(s, events).Some? <==> Keep(b, events).Some?
    ensures Serve(s, events).Some? ==>
      var t, c := Serve(s, events).value, Keep(b, events).value;
      InOrder(c) && Agrees(t, c) && Informed(t, c)
    decreases |events|
  {
    if events != [] {
      AfterFollows(s, b, events[0]);
      if Acceptable(s, events[0]) {
        AfterInforms(s, b, events[0]);
        NoteInOrder(b, events[0]);
        RunFollows(After(s, events[0]), Note(b, events[0]), events[1..]);
      }
    }
  }

  /** In every run of arbitrary clients the server is where the book says it is, and every open
      connection that has sent MONITOR has the present numbers. */
  lemma ServerFollowsBook(events: seq<Input>)
    ensures Serve(Start(), events).Some? <==> Keep(Blank(), events).Some?
    ensures Serve(Start(), events).Some? ==>
      var t, c := Serve(Start(), events).value, Keep(Blank(), events).value;
      InOrder(c) && Agrees(t, c) && Informed(t, c)
  {
    assert Agrees(Start(), Blank());
    RunFollows(Start(), Blank(), events);
  }

  // --- Building runs ------------------------------------------------------------------------------------------

  ghost predicate Kept(events: seq<Input>, b: Book) {
    Regular(b) && Keep(Blank(), events) == Some(b)
  }

  lemma {:induction false} KeepOneMore(b: Book, events: seq<Input>, e: Input, c: Book)
    requires Regular(b) && Keep(b, events) == Some(c) && Regular(c) && Possible(c, e)
    ensures Keep(b, events + [e]) == Some(Note(c, e))
    decreases |events|
  {
    if events == [] {
      assert events + [e] == [e] && [e][1..] == [];
      NoteRegular(c, e);
    } else {
      assert (events + [e])[1..] == events[1..] + [e];
      NoteRegular(b, events[0]);
      KeepOneMore(Note(b, events[0]), events[1..], e, c);
    }
  }

  lemma Go(events: seq<Input>, b: Book, e: Input) returns (more: seq<Input>, c: Book)
    requires Kept(events, b) && Possible(b, e)
    ensures more == events + [e] && c == Note(b, e) && Kept(more, c)
  {
    more, c := events + [e], Note(b, e);
    KeepOneMore(Blank(), events, e, b);
    NoteRegular(b, e);
  }
}
