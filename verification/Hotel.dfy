/** The hotel: clients queue on the benches, the administrator gives out the rooms. */
module Hotel {
  import opened Sums

  const ROOMS: nat := 30
  const DAYS: nat := 16

  /** The threads: main, the administrator, a client on his way to the benches, and his stay once
      it has begun. */
  datatype Who = Main | Administrator | Client(id: nat) | Guest(id: nat)

  /** What a mutex does when its holder locks it once more: block, refuse, or count. A void one
      is no mutex at all: its calls fail, and it keeps nobody out. */
  datatype Kind = Normal | ErrorChecking | Recursive | Void

  datatype Mutexes = Mutexes(waiters: Kind, rooms: Kind)

  datatype Lock = Free | Held(owner: Who, depth: nat)

  /** None when the call blocks. */
  function Acquire(k: Kind, l: Lock, w: Who): Option<Lock> {
    if k.Void? then Some(l)
    else
      match l
      case Free => Some(Held(w, 1))
      case Held(owner, depth) =>
        if owner != w || k.Normal? then None
        else Some(if k.Recursive? then Held(w, depth + 1) else l)
  }

  function Release(l: Lock, w: Who): Lock {
    match l
    case Free => Free
    case Held(owner, depth) => if owner != w then l else if depth > 1 then Held(w, depth - 1) else Free
  }

  /** Where a client's own thread has got to. */
  datatype Arrival =
    | Away
    | Queueing            // has locked the waiters
    | Queued              // has pushed himself
    | Through

  /** Where the thread of his stay has got to. */
  datatype Stay =
    | Absent
    | Staying
    | Leaving             // has locked the rooms
    | Counting(seen: int) // has read the number of free rooms
    | Returned            // has written it back
    | Gone

  /** Where the administrator's thread has got to. */
  datatype Admin =
    | Morning
    | TestQueue
    | TestRooms
    | TestAgain
    | Calling
    | Called(guest: nat)
    | WantRoom(guest: nat)
    | AtDesk(guest: nat)
    | Counting(guest: nat, seen: int)
    | Taken(guest: nat)
    | Showing(guest: nat)
    | Relock
    | Evening
    | Closed

  /** arrived and admitted only record the order of pushes and pops; over says that main has
      returned, and with it the process. */
  datatype State = State(
    day: nat,
    admin: Admin,
    arrivals: seq<Arrival>,
    stays: seq<Stay>,
    waitersLock: Lock,
    roomLock: Lock,
    rooms: int,
    waiting: seq<nat>,
    arrived: seq<nat>,
    admitted: seq<nat>,
    over: bool)

  function Start(n: nat): State {
    State(0, Morning, seq(n, c => Away), seq(n, c => Absent), Free, Free, ROOMS, [], [], [], false)
  }

  /** A client checks in. */
  function ClientStep(m: Mutexes, s: State, c: nat): Option<State>
    requires c < |s.arrivals|
  {
    match s.arrivals[c]
    case Away =>
      (match Acquire(m.waiters, s.waitersLock, Client(c))
       case None => None
       case Some(l) => Some(s.(waitersLock := l, arrivals := s.arrivals[c := Queueing])))
    case Queueing =>
      Some(s.(waiting := s.waiting + [c], arrived := s.arrived + [c], arrivals := s.arrivals[c := Queued]))
    case Queued =>
      Some(s.(waitersLock := Release(s.waitersLock, Client(c)), arrivals := s.arrivals[c := Through]))
    case Through => None
  }

  /** A guest gives his room back. */
  function GuestStep(m: Mutexes, s: State, c: nat): Option<State>
    requires c < |s.stays|
  {
    match s.stays[c]
    case Absent => None
    case Staying =>
      (match Acquire(m.rooms, s.roomLock, Guest(c))
       case None => None
       case Some(l) => Some(s.(roomLock := l, stays := s.stays[c := Leaving])))
    case Leaving => Some(s.(stays := s.stays[c := Stay.Counting(s.rooms)]))
    case Counting(seen) => Some(s.(rooms := seen + 1, stays := s.stays[c := Returned]))
    case Returned => Some(s.(roomLock := Release(s.roomLock, Guest(c)), stays := s.stays[c := Gone]))
    case Gone => None
  }

  /** The administrator at the lock of the waiters. */
  function LockWaiters(m: Mutexes, s: State): Option<State> {
    match Acquire(m.waiters, s.waitersLock, Administrator)
    case None => None
    case Some(l) => Some(s.(waitersLock := l, admin := TestQueue))
  }

  function UnlockWaiters(s: State, next: Admin): State {
    s.(waitersLock := Release(s.waitersLock, Administrator), admin := next)
  }

  function AdminStep(m: Mutexes, s: State): Option<State> {
    match s.admin
    case Morning => if s.day == DAYS then Some(s.(admin := Closed)) else LockWaiters(m, s)
    case TestQueue => Some(s.(admin := if s.waiting == [] then Evening else TestRooms))
    case TestRooms => Some(s.(admin := if s.rooms > 0 then TestAgain else Evening))
    case TestAgain => Some(if s.waiting == [] then UnlockWaiters(s, Evening) else s.(admin := Calling))
    case Calling =>
      if s.waiting == [] then None
      else
        var c := s.waiting[0];
        Some(s.(waiting := s.waiting[1..], admitted := s.admitted + [c], admin := Called(c)))
    case Called(c) => Some(UnlockWaiters(s, WantRoom(c)))
    case WantRoom(c) =>
      (match Acquire(m.rooms, s.roomLock, Administrator)
       case None => None
       case Some(l) => Some(s.(roomLock := l, admin := AtDesk(c))))
    case AtDesk(c) => Some(s.(admin := Admin.Counting(c, s.rooms)))
    case Counting(c, seen) => Some(s.(rooms := seen - 1, admin := Taken(c)))
    case Taken(c) => Some(s.(roomLock := Release(s.roomLock, Administrator), admin := Showing(c)))
    case Showing(c) =>
      if c < |s.stays| then Some(s.(stays := s.stays[c := Staying], admin := Relock)) else None
    case Relock => LockWaiters(m, s)
    case Evening => Some(s.(day := s.day + 1, admin := Morning))
    case Closed => None
  }

  /** The threads main waits for have returned: the clients' and the administrator's, but not the
      stays'. */
  predicate Joined(s: State) {
    s.admin.Closed? && forall c :: 0 <= c < |s.arrivals| ==> s.arrivals[c].Through?
  }

  /** Main returns, and whatever is still under way ends with the process. */
  function MainStep(s: State): Option<State> {
    if Joined(s) then Some(s.(over := true)) else None
  }

  /** One step of one thread; None when it is blocked, not there or over. */
  function Step(m: Mutexes, s: State, w: Who): Option<State> {
    if s.over then None
    else
    match w
    case Main => MainStep(s)
    case Administrator => AdminStep(m, s)
    case Client(c) => if c < |s.arrivals| then ClientStep(m, s, c) else None
    case Guest(c) => if c < |s.stays| then GuestStep(m, s, c) else None
  }

  function Run(m: Mutexes, s: State, schedule: seq<Who>): Option<State>
    decreases |schedule|
  {
    if schedule == [] then Some(s)
    else match Step(m, s, schedule[0])
         case None => None
         case Some(t) => Run(m, t, schedule[1..])
  }
}
