/** The server's globals, changed in place, and the visitor's local variables likewise. */
module GalleryDesk {
  import opened Sums
  import opened GalleryServer
  import GalleryVisitor

  class Desk {
    const clients: array<Slot>
    const links: array<Link>
    const counts: array<int>
    var current: int

    ghost predicate Valid()
      reads this, clients, counts, links
    {
      && clients.Length == MAX_CLIENTS && links.Length == MAX_CLIENTS && counts.Length == NUM_PAINTINGS
      && WellFormed(Model())
    }

    ghost function Model(): Server
      reads this, clients, counts, links
    {
      Server(clients[..], current, counts[..], links[..])
    }

    constructor ()
      ensures Valid() && fresh(clients) && fresh(links) && fresh(counts)
      ensures Model() == Start()
    {
      clients := new Slot[MAX_CLIENTS](i => Slot(-1, -1, -1, false, false));
      links := new Link[MAX_CLIENTS](i => Link(None));
      counts := new int[NUM_PAINTINGS](p => 0);
      current := 0;
      new;
      assert clients[..] == Start().clients && links[..] == Start().links && counts[..] == Start().counts;
    }

    /** Takes a new connection into the first free slot. */
    method AcceptConnection(fd: int)
      requires Valid()
      modifies clients, links
      ensures Valid() && Model() == Accept(old(Model()), fd)
    {
      var i := 0;
      while i < MAX_CLIENTS && clients[i].fd != -1
        invariant 0 <= i <= MAX_CLIENTS
        invariant FreeSlot(clients[..], 0) == FreeSlot(clients[..], i)
      {
        i := i + 1;
      }
      if i < MAX_CLIENTS {
        clients[i] := clients[i].(fd := fd);
        links[i] := Link(None);
      }
    }

    /** Sends the six counters to every monitor. */
    method BroadcastStatus()
      requires Valid()
      modifies links
      ensures Valid() && Model() == Broadcast(old(Model()))
    {
      var status := [current] + counts[..];
      for i := 0 to MAX_CLIENTS
        invariant forall j :: 0 <= j < i ==> links[j] == Broadcast(old(Model())).links[j]
        invariant forall j :: i <= j < MAX_CLIENTS ==> links[j] == old(links[j])
      {
        if clients[i].fd != -1 && clients[i].isMonitor {
          links[i] := links[i].(shown := Some(status));
        }
      }
      assert links[..] == Broadcast(old(Model())).links;
    }

    /** One person less at the painting client i stands at. */
    method LowerPainting(i: nat)
      requires Valid() && i < MAX_CLIENTS
      modifies counts
      ensures Valid() && Model() == LeaveCurrent(old(Model()), i)
    {
      var p := clients[i].painting;
      if p != -1 {
        counts[p] := if counts[p] > 0 then counts[p] - 1 else 0;
      }
    }

    method HangUp(i: nat)
      requires Valid() && i < MAX_CLIENTS
      modifies this, clients, counts, links
      ensures Valid() && Model() == Disconnect(old(Model()), i)
    {
      LowerPainting(i);
      if clients[i].visitorId != -1 && !clients[i].isMonitor && !clients[i].sentExit {
        current := if current > 0 then current - 1 else 0;
      }
      clients[i] := clients[i].(fd := -1);
      BroadcastStatus();
    }

    method ObeyCommand(i: nat, id: int, action: Action, number: int) returns (reply: Reply)
      requires Valid() && i < MAX_CLIENTS
      modifies this, clients, counts, links
      ensures Valid() && (Model(), reply) == Obey(old(Model()), i, id, action, number)
    {
      reply := NoReply;
      match action {
        case Enter =>
          if current < MAX_VISITORS {
            current := current + 1;
            reply := EnterOk(id);
          } else {
            reply := EnterWait(id);
          }
          BroadcastStatus();
        case View =>
          if 0 <= number < NUM_PAINTINGS {
            if counts[number] < MAX_PAINTING_VISITORS {
              counts[number] := counts[number] + 1;
              clients[i] := clients[i].(painting := number);
              reply := ViewOk(id, number);
            } else {
              reply := ViewWait(id, number);
            }
            BroadcastStatus();
          }
        case LeavePainting =>
          if clients[i].painting != -1 {
            LowerPainting(i);
            clients[i] := clients[i].(painting := -1);
            reply := LeftPainting(id);
            BroadcastStatus();
          }
        case Exit =>
          LowerPainting(i);
          current := if current > 0 then current - 1 else 0;
          clients[i] := clients[i].(painting := -1, sentExit := true);
          reply := ExitOk(id);
          BroadcastStatus();
        case Other =>
      }
    }

    method HandleClientMessage(i: nat, m: Message) returns (reply: Reply)
      requires Valid() && i < MAX_CLIENTS
      modifies this, clients, counts, links
      ensures Valid() && (Model(), reply) == Handle(old(Model()), i, m)
    {
      reply := NoReply;
      match m {
        case Closed => HangUp(i);
        case MonitorText =>
          clients[i] := clients[i].(isMonitor := true);
          BroadcastStatus();
        case Unparsed =>
        case Command(id, action, number) =>
          clients[i] := clients[i].(visitorId := id);
          reply := ObeyCommand(i, id, action, number);
      }
    }
  }

  /** The local variables of visit_gallery. */
  class Tour {
    const visited: array<bool>
    var paintingsToVisit: int
    var phase: GalleryVisitor.Phase

    ghost predicate Valid()
      reads this, visited
    {
      visited.Length == NUM_PAINTINGS && GalleryVisitor.Consistent(Model())
    }

    ghost function Model(): GalleryVisitor.Visitor
      reads this, visited
    {
      GalleryVisitor.Visitor(phase, visited[..], paintingsToVisit)
    }

    constructor ()
      ensures Valid() && fresh(visited)
      ensures Model() == GalleryVisitor.Newcomer()
    {
      visited := new bool[NUM_PAINTINGS](p => false);
      paintingsToVisit := NUM_PAINTINGS;
      phase := GalleryVisitor.Entering;
      new;
      assert visited[..] == GalleryVisitor.Newcomer().visited;
      GalleryVisitor.NewcomerConsistent();
    }

    /** What the visitor sends when it draws p. */
    method Ask(id: int, p: nat) returns (request: Option<Message>)
      requires Valid() && p < NUM_PAINTINGS
      ensures request == GalleryVisitor.Request(Model(), id, p)
    {
      match phase {
        case Entering => request := Some(Command(id, Enter, -1));
        case Retrying => request := Some(Command(id, Enter, -1));
        case Touring =>
          if paintingsToVisit > 0 {
            request := if !visited[p] then Some(Command(id, View, p)) else None;
          } else {
            request := Some(Command(id, Exit, -1));
          }
        case Viewing(q) => request := Some(Command(id, LeavePainting, q));
        case Leaving => request := Some(Closed);
        case Done => request := None;
      }
    }

    /** How it goes on with the answer to what it asked when it drew p. */
    method Hear(id: int, p: nat, reply: Reply)
      requires Valid() && p < NUM_PAINTINGS && GalleryVisitor.Request(Model(), id, p).Some?
      modifies this, visited
      ensures Valid() && Model() == GalleryVisitor.React(old(Model()), p, reply)
    {
      GalleryVisitor.ReactConsistent(Model(), id, p, reply);
      match phase {
        case Entering => phase := if reply.EnterWait? then GalleryVisitor.Retrying else GalleryVisitor.Touring;
        case Retrying => phase := if reply.EnterOk? then GalleryVisitor.Touring else GalleryVisitor.Retrying;
        case Touring =>
          if paintingsToVisit > 0 {
            if reply.ViewOk? {
              phase := GalleryVisitor.Viewing(p);
              visited[p] := true;
              paintingsToVisit := paintingsToVisit - 1;
            }
          } else {
            phase := GalleryVisitor.Leaving;
          }
        case Viewing(q) => phase := GalleryVisitor.Touring;
        case Leaving => phase := GalleryVisitor.Done;
        case Done =>
      }
    }
  }
}
