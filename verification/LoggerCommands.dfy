/** Which text makes the server do what. */
module LoggerCommands {
  import opened LoggerRegistry
  import opened LoggerRuns

  /** A port number is kept modulo 2^16, as a 16-bit field keeps it. */
  lemma PortIsKept(port: int)
    ensures 0 <= Port16(port) < 0x1_0000 && (port - Port16(port)) % 0x1_0000 == 0
    ensures 0 <= port < 0x1_0000 ==> Port16(port) == port
  {
  }

  lemma Apart(text: string, p: string, q: string)
    ensures p != [] && q != [] && p[0] != q[0] ==> !StartsWith(text, p) || !StartsWith(text, q)
  {
    if p != [] && StartsWith(text, p) {
      assert text[0] == p[0];
    }
    if q != [] && StartsWith(text, q) {
      assert text[0] == q[0];
    }
  }

  /** The four commands are told by how the text begins; no text begins in two ways. */
  lemma CommandIff(text: string)
    ensures Recognise(text) == Register <==> StartsWith(text, "REGISTER")
    ensures Recognise(text) == Unregister <==> StartsWith(text, "UNREGISTER")
    ensures Recognise(text) == Pong <==> StartsWith(text, "PONG")
    ensures Recognise(text) == Status <==> StartsWith(text, "STATUS")
    ensures Recognise(text) == Unknown <==>
      !StartsWith(text, "REGISTER") && !StartsWith(text, "UNREGISTER")
      && !StartsWith(text, "PONG") && !StartsWith(text, "STATUS")
  {
    Apart(text, "REGISTER", "UNREGISTER");
    Apart(text, "REGISTER", "PONG");
    Apart(text, "REGISTER", "STATUS");
    Apart(text, "UNREGISTER", "PONG");
    Apart(text, "UNREGISTER", "STATUS");
    Apart(text, "PONG", "STATUS");
  }

  lemma BeginsWith(p: string, rest: string)
    ensures StartsWith(p + rest, p)
  {
  }

  /** Which command a text is that begins with its word, whatever follows. */
  lemma WordsMean(rest: string)
    ensures Recognise("REGISTER" + rest) == Register
    ensures Recognise("UNREGISTER" + rest) == Unregister
    ensures Recognise("PONG" + rest) == Pong
    ensures Recognise("STATUS" + rest) == Status
  {
    BeginsWith("REGISTER", rest);
    BeginsWith("UNREGISTER", rest);
    BeginsWith("PONG", rest);
    BeginsWith("STATUS", rest);
    CommandIff("REGISTER" + rest);
    CommandIff("UNREGISTER" + rest);
    CommandIff("PONG" + rest);
    CommandIff("STATUS" + rest);
  }

  /** The registry after a has sent a text at time now. */
  function AfterText(r: Registry, text: string, a: Address, now: nat): Registry {
    Step(r, Event(now, Receive(Recognise(text), a)))
  }

  predicate Sound(r: Registry, a: Address) {
    Distinct(r.loggers) && |r.loggers| <= 10 && a.port < 0x1_0000
  }

  /** After REGISTER the sender is active and heard from just now if there is room or it is known;
      in a full registry nothing changes. Nobody else's standing changes. */
  lemma RegisterText(r: Registry, rest: string, a: Address, b: Address, now: nat)
    requires Sound(r, a) && Sound(r, b)
    ensures StandingOf(AfterText(r, "REGISTER" + rest, a, now).loggers, b)
      == if a == b && |r.loggers| < 10 then Known(true, now) else StandingOf(r.loggers, b)
  {
    WordsMean(rest);
    LoggersAreIndependent(r, Event(now, Receive(Register, a)), b);
  }

  /** After UNREGISTER a known sender is not active. Nobody else's standing changes. */
  lemma UnregisterText(r: Registry, rest: string, a: Address, b: Address, now: nat)
    requires Sound(r, a) && Sound(r, b)
    ensures StandingOf(AfterText(r, "UNREGISTER" + rest, a, now).loggers, b)
      == match StandingOf(r.loggers, b)
         case Stranger => Stranger
         case Known(active, t) => if a == b then Known(false, t) else Known(active, t)
  {
    WordsMean(rest);
    LoggersAreIndependent(r, Event(now, Receive(Unregister, a)), b);
  }

  /** After PONG a known sender was heard from just now; it is as active as before. Nobody else's
      standing changes. */
  lemma PongText(r: Registry, rest: string, a: Address, b: Address, now: nat)
    requires Sound(r, a) && Sound(r, b)
    ensures StandingOf(AfterText(r, "PONG" + rest, a, now).loggers, b)
      == match StandingOf(r.loggers, b)
         case Stranger => Stranger
         case Known(active, t) => if a == b then Known(active, now) else Known(active, t)
  {
    WordsMean(rest);
    LoggersAreIndependent(r, Event(now, Receive(Pong, a)), b);
  }

  /** Any other text changes nothing. */
  lemma OtherText(r: Registry, text: string, a: Address, now: nat)
    requires !StartsWith(text, "REGISTER") && !StartsWith(text, "UNREGISTER") && !StartsWith(text, "PONG")
    ensures AfterText(r, text, a, now) == r
  {
    CommandIff(text);
  }

  /** In one sentence each: with room, REGISTER makes the sender active, and UNREGISTER makes it
      not so. */
  lemma RegisterAndUnregister(r: Registry, rest: string, a: Address, now: nat)
    requires Sound(r, a)
    ensures |r.loggers| < 10 ==> a in ActiveAddresses(AfterText(r, "REGISTER" + rest, a, now).loggers)
    ensures a !in ActiveAddresses(AfterText(r, "UNREGISTER" + rest, a, now).loggers)
  {
    RegisterText(r, rest, a, a, now);
    UnregisterText(r, rest, a, a, now);
    var s, t := AfterText(r, "REGISTER" + rest, a, now), AfterText(r, "UNREGISTER" + rest, a, now);
    StepKeepsAddresses(r, Event(now, Receive(Recognise("REGISTER" + rest), a)));
    StepKeepsAddresses(r, Event(now, Receive(Recognise("UNREGISTER" + rest), a)));
    ActiveStanding(s.loggers, a);
    ActiveStanding(t.loggers, a);
  }
}
