/** The registry of loggers: registration, heartbeats and expiry. */
module LoggerRegistry {

  const MAX_LOGGERS: nat := 10
  const HEARTBEAT_INTERVAL: nat := 30
  const LOGGER_TIMEOUT: nat := HEARTBEAT_INTERVAL * 2

  datatype Address = Address(host: nat, port: nat)

  /** An address as a text: the one dotted form of a host, or no such form. */
  datatype IpText = Dotted(host: nat) | Malformed(text: string)

  datatype Logger = Logger(addr: Address, active: bool, lastActive: nat)

  datatype Registry = Registry(loggers: seq<Logger>, lastCheck: nat)

  datatype Command = Register | Unregister | Pong | Status | Unknown

  datatype Action =
    | Configure(ip: IpText, port: int)
    | Receive(cmd: Command, from: Address)
    | Log(unreachable: set<Address>)
    | Check(unreachable: set<Address>)

  datatype Event = Event(at: nat, what: Action)

  // --- Commands as texts ----------------------------------------------------------------------

  predicate StartsWith(text: string, prefix: string) {
    |prefix| <= |text| && text[..|prefix|] == prefix
  }

  function Recognise(text: string): Command {
    if StartsWith(text, "REGISTER") then Register
    else if StartsWith(text, "UNREGISTER") then Unregister
    else if StartsWith(text, "PONG") then Pong
    else if StartsWith(text, "STATUS") then Status
    else Unknown
  }

  // --- The entries ------------------------------------------------------------------------------

  /** A port number as it is kept, in 16 bits. */
  function Port16(port: int): nat { port % 0x1_0000 }

  /** The first entry from i on with address a, or the number of entries. */
  function Find(ls: seq<Logger>, a: Address, i: nat): (k: nat)
    requires i <= |ls|
    ensures i <= k <= |ls|
    ensures k < |ls| ==> ls[k].addr == a
    ensures forall j :: i <= j < k ==> ls[j].addr != a
    decreases |ls| - i
  {
    if i == |ls| || ls[i].addr == a then i else Find(ls, a, i + 1)
  }

  function Add(r: Registry, ip: IpText, port: int, now: nat): Registry {
    if |r.loggers| >= MAX_LOGGERS || ip.Malformed? then r
    else
      var a := Address(ip.host, Port16(port));
      var k := Find(r.loggers, a, 0);
      if k < |r.loggers| then r.(loggers := r.loggers[k := Logger(a, true, now)])
      else r.(loggers := r.loggers + [Logger(a, true, now)])
  }

  function Remove(r: Registry, ip: IpText, port: int): Registry {
    if ip.Malformed? then r
    else
      var k := Find(r.loggers, Address(ip.host, Port16(port)), 0);
      if k < |r.loggers| then r.(loggers := r.loggers[k := r.loggers[k].(active := false)]) else r
  }

  function Hear(r: Registry, a: Address, now: nat): Registry {
    var k := Find(r.loggers, a, 0);
    if k < |r.loggers| then r.(loggers := r.loggers[k := r.loggers[k].(lastActive := now)]) else r
  }

  /** An entry after a send to it. */
  function Sent(l: Logger, unreachable: set<Address>): Logger {
    if l.active && l.addr in unreachable then l.(active := false) else l
  }

  /** An entry after its turn in a check at time now. */
  function Pinged(l: Logger, now: nat, unreachable: set<Address>): Logger {
    if l.active && now - l.lastActive >= LOGGER_TIMEOUT then l.(active := false) else Sent(l, unreachable)
  }

  function SendAll(ls: seq<Logger>, unreachable: set<Address>): seq<Logger> {
    seq(|ls|, i requires 0 <= i < |ls| => Sent(ls[i], unreachable))
  }

  function PingAll(ls: seq<Logger>, now: nat, unreachable: set<Address>): seq<Logger> {
    seq(|ls|, i requires 0 <= i < |ls| => Pinged(ls[i], now, unreachable))
  }

  /** What STATUS reports. */
  function CountActive(ls: seq<Logger>): nat {
    if ls == [] then 0
    else CountActive(ls[..|ls| - 1]) + (if ls[|ls| - 1].active then 1 else 0)
  }

  predicate CheckDue(r: Registry, now: nat) {
    now - r.lastCheck >= HEARTBEAT_INTERVAL
  }

  function Step(r: Registry, e: Event): Registry {
    match e.what
    case Configure(ip, port) => Add(r, ip, port, e.at)
    case Receive(Register, a) => Add(r, Dotted(a.host), a.port, e.at)
    case Receive(Unregister, a) => Remove(r, Dotted(a.host), a.port)
    case Receive(Pong, a) => Hear(r, a, e.at)
    case Receive(_, a) => r
    case Log(unreachable) => r.(loggers := SendAll(r.loggers, unreachable))
    case Check(unreachable) =>
      if CheckDue(r, e.at) then Registry(PingAll(r.loggers, e.at, unreachable), e.at) else r
  }

  function Run(es: seq<Event>): Registry {
    if es == [] then Registry([], 0) else Step(Run(es[..|es| - 1]), es[|es| - 1])
  }
}
