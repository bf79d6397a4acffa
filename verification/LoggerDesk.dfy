/** The server's table of loggers, changed in place. */
module LoggerDesk {
  import opened Sums
  import opened LoggerRegistry

  class Desk {
    const loggers: array<Logger>
    var numLoggers: nat
    var lastCheck: nat

    ghost predicate Valid()
      reads this
    {
      loggers.Length == MAX_LOGGERS && numLoggers <= MAX_LOGGERS
    }

    ghost function Model(): Registry
      reads this, loggers
      requires Valid()
    {
      Registry(loggers[..numLoggers], lastCheck)
    }

    constructor ()
      ensures Valid() && fresh(loggers) && Model() == Run([])
    {
      loggers := new Logger[MAX_LOGGERS](i => Logger(Address(0, 0), false, 0));
      numLoggers := 0;
      lastCheck := 0;
    }

    /** The index of an address, or numLoggers: the search that several commands begin with. */
    method Search(a: Address) returns (i: nat)
      requires Valid()
      ensures i == Find(loggers[..numLoggers], a, 0)
    {
      i := 0;
      while i < numLoggers && loggers[i].addr != a
        invariant i <= numLoggers
        invariant Find(loggers[..numLoggers], a, 0) == Find(loggers[..numLoggers], a, i)
      {
        i := i + 1;
      }
    }

    method AddLogger(ip: IpText, port: int, now: nat)
      requires Valid()
      modifies this, loggers
      ensures Valid() && Model() == Add(old(Model()), ip, port, now)
    {
      if numLoggers >= MAX_LOGGERS {
        return;
      }
      if ip.Dotted? {
        var i := Search(Address(ip.host, Port16(port)));
        if i < numLoggers {
          loggers[i] := loggers[i].(active := true, lastActive := now);
          return;
        }
      }
      loggers[numLoggers] := loggers[numLoggers].(addr := Address(0, Port16(port)));
      if ip.Malformed? {
        return;
      }
      loggers[numLoggers] := Logger(Address(ip.host, Port16(port)), true, now);
      numLoggers := numLoggers + 1;
    }

    method RemoveLogger(ip: IpText, port: int)
      requires Valid()
      modifies loggers
      ensures Valid() && Model() == Remove(old(Model()), ip, port)
    {
      if ip.Dotted? {
        var i := Search(Address(ip.host, Port16(port)));
        if i < numLoggers {
          loggers[i] := loggers[i].(active := false);
        }
      }
    }

    method SendToLoggers(unreachable: set<Address>)
      requires Valid()
      modifies loggers
      ensures Valid() && Model() == old(Model()).(loggers := SendAll(old(Model()).loggers, unreachable))
    {
      for i := 0 to numLoggers
        invariant forall j :: 0 <= j < i ==> loggers[j] == Sent(old(loggers[j]), unreachable)
        invariant forall j :: i <= j < numLoggers ==> loggers[j] == old(loggers[j])
      {
        if loggers[i].active && loggers[i].addr in unreachable {
          loggers[i] := loggers[i].(active := false);
        }
      }
    }

    method CheckHeartbeats(now: nat, unreachable: set<Address>)
      requires Valid()
      modifies this`lastCheck, loggers
      ensures Valid() && Model() == Step(old(Model()), Event(now, Check(unreachable)))
    {
      if now - lastCheck >= HEARTBEAT_INTERVAL {
        for i := 0 to numLoggers
          invariant lastCheck == old(lastCheck)
          invariant forall j :: 0 <= j < i ==> loggers[j] == Pinged(old(loggers[j]), now, unreachable)
          invariant forall j :: i <= j < numLoggers ==> loggers[j] == old(loggers[j])
        {
          if loggers[i].active {
            if now - loggers[i].lastActive >= LOGGER_TIMEOUT {
              loggers[i] := loggers[i].(active := false);
            } else if loggers[i].addr in unreachable {
              loggers[i] := loggers[i].(active := false);
            }
          }
        }
        lastCheck := now;
      }
    }

    /** Obeys one command; STATUS is answered with the active and the total number of loggers. */
    method HandleLoggerCommand(text: string, from: Address, now: nat) returns (status: Option<(nat, nat)>)
      requires Valid() && from.port < 0x1_0000
      modifies this, loggers
      ensures Valid() && Model() == Step(old(Model()), Event(now, Receive(Recognise(text), from)))
      ensures status ==
        if Recognise(text).Status? then Some((CountActive(Model().loggers), |Model().loggers|)) else None
    {
      status := None;
      if StartsWith(text, "REGISTER") {
        AddLogger(Dotted(from.host), from.port, now);
      } else if StartsWith(text, "UNREGISTER") {
        RemoveLogger(Dotted(from.host), from.port);
      } else if StartsWith(text, "PONG") {
        var i := Search(from);
        if i < numLoggers {
          loggers[i] := loggers[i].(lastActive := now);
        }
      } else if StartsWith(text, "STATUS") {
        var count := 0;
        for i := 0 to numLoggers
          invariant count == CountActive(loggers[..i])
        {
          assert loggers[..i + 1][..i] == loggers[..i];
          if loggers[i].active {
            count := count + 1;
          }
        }
        status := Some((count, numLoggers));
      }
    }
  }
}
