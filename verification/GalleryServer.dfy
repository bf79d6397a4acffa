/** The gallery server: counters, client slots and what it does with each message. */
module GalleryServer {
  import opened Sums

  const MAX_VISITORS := 25
  const MAX_PAINTING_VISITORS := 5
  const MAX_CLIENTS := 300
  const NUM_PAINTINGS := 5

  datatype Slot = Slot(fd: int, visitorId: int, painting: int, isMonitor: bool, sentExit: bool)

  /** The status last sent to the connection in a slot. */
  datatype Link = Link(shown: Option<seq<int>>)

  datatype Server = Server(clients: seq<Slot>, current: int, counts: seq<int>, links: seq<Link>)

  datatype Action = Enter | View | LeavePainting | Exit | Other

  /** What a read on a client's socket yields. */
  datatype Message =
    | Closed
    | MonitorText
    | Unparsed
    | Command(visitorId: int, action: Action, number: int)

  datatype Reply =
    | NoReply
    | EnterOk(id: int) | EnterWait(id: int)
    | ViewOk(id: int, painting: int) | ViewWait(id: int, painting: int)
    | LeftPainting(id: int)
    | ExitOk(id: int)

  ghost predicate WellFormed(s: Server) {
    && |s.clients| == MAX_CLIENTS && |s.links| == MAX_CLIENTS && |s.counts| == NUM_PAINTINGS
    && forall i :: 0 <= i < MAX_CLIENTS ==> -1 <= s.clients[i].painting < NUM_PAINTINGS
  }

  function Start(): Server {
    Server(seq(MAX_CLIENTS, i => Slot(-1, -1, -1, false, false)), 0, seq(NUM_PAINTINGS, p => 0),
           seq(MAX_CLIENTS, i => Link(None)))
  }

  function Lower(x: int): int {
    if x > 0 then x - 1 else 0
  }

  function Status(s: Server): seq<int> {
    [s.current] + s.counts
  }

  predicate Listens(c: Slot) {
    c.fd != -1 && c.isMonitor
  }

  function Broadcast(s: Server): Server
    requires |s.links| == |s.clients|
  {
    s.(links := seq(|s.links|, i requires 0 <= i < |s.links| =>
      if Listens(s.clients[i]) then s.links[i].(shown := Some(Status(s))) else s.links[i]))
  }

  /** The first slot that is free, counting from k. */
  function FreeSlot(clients: seq<Slot>, k: nat): (r: Option<nat>)
    requires k <= |clients|
    ensures r.Some? ==> k <= r.value < |clients| && clients[r.value].fd == -1
    ensures r.Some? ==> forall i :: k <= i < r.value ==> clients[i].fd != -1
    ensures r.None? ==> forall i :: k <= i < |clients| ==> clients[i].fd != -1
    decreases |clients| - k
  {
    if k == |clients| then None
    else if clients[k].fd == -1 then Some(k)
    else FreeSlot(clients, k + 1)
  }

  /** A new connection takes over the first free slot, with whatever the previous owner left
      in the other fields; without a free slot it is forgotten. */
  function Accept(s: Server, fd: int): Server
    requires WellFormed(s)
  {
    match FreeSlot(s.clients, 0)
    case None => s
    case Some(i) => s.(clients := s.clients[i := s.clients[i].(fd := fd)],
                       links := s.links[i := Link(None)])
  }

  function LeaveCurrent(s: Server, i: nat): Server
    requires WellFormed(s) && i < MAX_CLIENTS
  {
    var p := s.clients[i].painting;
    if p == -1 then s else s.(counts := s.counts[p := Lower(s.counts[p])])
  }

  function SetSlot(s: Server, i: nat, c: Slot): Server
    requires i < |s.clients|
  {
    s.(clients := s.clients[i := c])
  }

  function Disconnect(s: Server, i: nat): Server
    requires WellFormed(s) && i < MAX_CLIENTS
  {
    var c := s.clients[i];
    var t := LeaveCurrent(s, i);
    var u := if c.visitorId != -1 && !c.isMonitor && !c.sentExit then t.(current := Lower(t.current)) else t;
    Broadcast(SetSlot(u, i, c.(fd := -1)))
  }

  function Handle(s: Server, i: nat, m: Message): (Server, Reply)
    requires WellFormed(s) && i < MAX_CLIENTS
  {
    match m
    case Closed => (Disconnect(s, i), NoReply)
    case MonitorText =>
      (Broadcast(SetSlot(s, i, s.clients[i].(isMonitor := true))), NoReply)
    case Unparsed => (s, NoReply)
    case Command(id, action, number) => Obey(SetSlot(s, i, s.clients[i].(visitorId := id)), i, id, action, number)
  }

  function Obey(s: Server, i: nat, id: int, action: Action, number: int): (Server, Reply)
    requires WellFormed(s) && i < MAX_CLIENTS
  {
    var c := s.clients[i];
    match action
    case Enter =>
      if s.current < MAX_VISITORS then (Broadcast(s.(current := s.current + 1)), EnterOk(id))
      else (Broadcast(s), EnterWait(id))
    case View =>
      if !(0 <= number < NUM_PAINTINGS) then (s, NoReply)
      else if s.counts[number] < MAX_PAINTING_VISITORS then
        (Broadcast(SetSlot(s.(counts := s.counts[number := s.counts[number] + 1]), i, c.(painting := number))),
         ViewOk(id, number))
      else (Broadcast(s), ViewWait(id, number))
    case LeavePainting =>
      if c.painting == -1 then (s, NoReply)
      else (Broadcast(SetSlot(LeaveCurrent(s, i), i, c.(painting := -1))), LeftPainting(id))
    case Exit =>
      var t := LeaveCurrent(s, i);
      (Broadcast(SetSlot(t.(current := Lower(t.current)), i, c.(painting := -1, sentExit := true))), ExitOk(id))
    case Other => (s, NoReply)
  }

  // --- Arbitrary clients ----------------------------------------------------------------

  datatype Input = Connect(fd: int) | Receive(slot: nat, message: Message)

  predicate Acceptable(s: Server, e: Input) {
    match e
    case Connect(fd) => fd > 0
    case Receive(i, m) => i < |s.clients| && s.clients[i].fd > 0
  }

  function After(s: Server, e: Input): Server
    requires WellFormed(s) && Acceptable(s, e)
  {
    match e
    case Connect(fd) => Accept(s, fd)
    case Receive(i, m) => Handle(s, i, m).0
  }

  lemma ObeyWellFormed(s: Server, i: nat, id: int, action: Action, number: int)
    requires WellFormed(s) && i < MAX_CLIENTS
    ensures WellFormed(Obey(s, i, id, action, number).0)
  {
  }

  lemma AfterWellFormed(s: Server, e: Input)
    requires WellFormed(s) && Acceptable(s, e)
    ensures WellFormed(After(s, e))
  {
    match e
    case Receive(i, Command(id, action, number)) =>
      ObeyWellFormed(SetSlot(s, i, s.clients[i].(visitorId := id)), i, id, action, number);
    case _ =>
  }

  ghost function Serve(s: Server, events: seq<Input>): Option<Server>
    requires WellFormed(s)
    decreases |events|
  {
    if events == [] then Some(s)
    else if !Acceptable(s, events[0]) then None
    else
      AfterWellFormed(s, events[0]);
      Serve(After(s, events[0]), events[1..])
  }
}
