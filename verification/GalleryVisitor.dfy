/** The visitor program: enter, see every painting once in random order, exit, hang up. */
module GalleryVisitor {
  import opened Sums
  import opened GalleryServer

  datatype Phase =
    | Entering            // first ENTER
    | Retrying            // told to wait once, keeps asking
    | Touring             // inside, between paintings
    | Viewing(at: nat)    // in front of a painting
    | Leaving             // EXIT answered, socket still open
    | Done

  datatype Visitor = Visitor(phase: Phase, visited: seq<bool>, left: int)

  function Newcomer(): Visitor {
    Visitor(Entering, seq(NUM_PAINTINGS, p => false), NUM_PAINTINGS)
  }

  /** The next message of visitor id when its draw is p; None when it only draws again. */
  function Request(v: Visitor, id: int, p: nat): Option<Message>
    requires |v.visited| == NUM_PAINTINGS && p < NUM_PAINTINGS
  {
    match v.phase
    case Entering => Some(Command(id, Enter, -1))
    case Retrying => Some(Command(id, Enter, -1))
    case Touring =>
      if v.left <= 0 then Some(Command(id, Exit, -1))
      else if v.visited[p] then None
      else Some(Command(id, View, p))
    case Viewing(q) => Some(Command(id, LeavePainting, q))
    case Leaving => Some(Closed)
    case Done => None
  }

  /** How the visitor goes on after the reply. */
  function React(v: Visitor, p: nat, reply: Reply): Visitor
    requires |v.visited| == NUM_PAINTINGS && p < NUM_PAINTINGS
  {
    match v.phase
    case Entering => v.(phase := if reply.EnterWait? then Retrying else Touring)
    case Retrying => v.(phase := if reply.EnterOk? then Touring else Retrying)
    case Touring =>
      if v.left <= 0 then v.(phase := Leaving)
      else if reply.ViewOk? then Visitor(Viewing(p), v.visited[p := true], v.left - 1)
      else v
    case Viewing(q) => v.(phase := Touring)
    case Leaving => v.(phase := Done)
    case Done => v
  }

  function Unseen(visited: seq<bool>): (u: seq<nat>)
    ensures |u| == |visited| && forall p :: 0 <= p < |visited| ==> u[p] == if visited[p] then 0 else 1
  {
    seq(|visited|, p requires 0 <= p < |visited| => if visited[p] then 0 else 1)
  }

  /** The counter tells how many paintings are unseen, and all are until the door opens. */
  ghost predicate Consistent(v: Visitor) {
    && |v.visited| == NUM_PAINTINGS
    && v.left == Total(Unseen(v.visited))
    && (v.phase.Entering? || v.phase.Retrying? ==> v.left == NUM_PAINTINGS)
    && (v.phase.Viewing? ==> v.phase.at < NUM_PAINTINGS)
    && (v.phase.Leaving? || v.phase.Done? ==> v.left == 0)
  }

  lemma NewcomerConsistent()
    ensures Consistent(Newcomer())
  {
    AllUnseen(Newcomer().visited);
  }

  lemma {:induction false} AllUnseen(visited: seq<bool>)
    requires forall p :: 0 <= p < |visited| ==> !visited[p]
    ensures Total(Unseen(visited)) == |visited|
  {
    if visited != [] {
      assert Unseen(visited)[1..] == Unseen(visited[1..]);
      AllUnseen(visited[1..]);
    }
  }

  lemma ReactConsistent(v: Visitor, id: int, p: nat, reply: Reply)
    requires Consistent(v) && p < NUM_PAINTINGS && Request(v, id, p).Some?
    ensures Consistent(React(v, p, reply))
  {
    if v.phase.Touring? && v.left > 0 {
      assert Unseen(v.visited[p := true]) == Unseen(v.visited)[p := 0];
      TotalUpdate(Unseen(v.visited), p, 0);
    }
  }

  /** While paintings are left, some draw leads to a request. */
  lemma SomePaintingUnseen(v: Visitor) returns (p: nat)
    requires Consistent(v) && v.left > 0
    ensures p < NUM_PAINTINGS && !v.visited[p]
  {
    TotalZero(Unseen(v.visited));
    p :| 0 <= p < |v.visited| && Unseen(v.visited)[p] != 0;
  }

  /** Granted replies this visitor is still due: one for the door, two per painting, one
      for the exit. */
  function Due(v: Visitor): int {
    match v.phase
    case Entering => 2 + 2 * v.left
    case Retrying => 2 + 2 * v.left
    case Touring => 1 + 2 * v.left
    case Viewing(_) => 2 + 2 * v.left
    case Leaving => 0
    case Done => 0
  }

  predicate Granted(r: Reply) {
    r.EnterOk? || r.ViewOk? || r.LeftPainting? || r.ExitOk?
  }

  predicate Inside(v: Visitor) {
    v.phase.Touring? || v.phase.Viewing?
  }

  /** Where the server should have this visitor standing. */
  function Position(v: Visitor): int {
    if v.phase.Viewing? then v.phase.at else -1
  }
}
