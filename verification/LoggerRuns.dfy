/** What every run of the registry of loggers keeps. */
module LoggerRuns {
  import opened LoggerRegistry

  // --- What is sent and what is known -------------------------------------------------------------

  /** Addresses come from 16-bit ports. */
  predicate Wellformed(e: Event) {
    e.what.Receive? ==> e.what.from.port < 0x1_0000
  }

  /** The clock never goes back. */
  predicate Clocked(es: seq<Event>) {
    && (forall i :: 0 <= i < |es| ==> Wellformed(es[i]))
    && (forall i, j :: 0 <= i < j < |es| ==> es[i].at <= es[j].at)
  }

  predicate Distinct(ls: seq<Logger>) {
    forall i, j :: 0 <= i < j < |ls| ==> ls[i].addr != ls[j].addr
  }

  function Addresses(ls: seq<Logger>): seq<Address> {
    seq(|ls|, i requires 0 <= i < |ls| => ls[i].addr)
  }

  /** The step is a word from a itself, or from the command line about a. */
  predicate Concerns(e: Event, a: Address) {
    || (e.what.Configure? && e.what.ip == Dotted(a.host) && Port16(e.what.port) == a.port)
    || (e.what.Receive? && e.what.from == a && (e.what.cmd == Register || e.what.cmd == Pong))
  }

  ghost predicate HeardAt(es: seq<Event>, a: Address, t: nat) {
    exists k :: 0 <= k < |es| && Concerns(es[k], a) && es[k].at == t
  }

  /** Every entry has its time from a word about it, and was young enough at the last check. */
  ghost predicate Backed(es: seq<Event>, l: Logger, lastCheck: nat) {
    && HeardAt(es, l.addr, l.lastActive)
    && (l.active ==> lastCheck - l.lastActive < LOGGER_TIMEOUT)
  }

  ghost predicate Good(es: seq<Event>, r: Registry) {
    && |r.loggers| <= MAX_LOGGERS
    && Distinct(r.loggers)
    && (es == [] || r.lastCheck <= es[|es| - 1].at)
    && (forall i :: 0 <= i < |r.loggers| ==> Backed(es, r.loggers[i], r.lastCheck))
  }

  lemma BackedLonger(es: seq<Event>, e: Event, l: Logger, lastCheck: nat)
    requires Backed(es, l, lastCheck)
    ensures Backed(es + [e], l, lastCheck)
  {
    var k :| 0 <= k < |es| && Concerns(es[k], l.addr) && es[k].at == l.lastActive;
    assert (es + [e])[k] == es[k];
  }

  lemma BackedNow(es: seq<Event>, e: Event, l: Logger, lastCheck: nat)
    requires Concerns(e, l.addr) && l.lastActive == e.at && lastCheck <= e.at
    ensures Backed(es + [e], l, lastCheck)
  {
    assert (es + [e])[|es|] == e;
  }

  /** From ls to ms the addresses stay at their places, and what is added makes neither too many
      nor two alike. */
  predicate Keeps(ls: seq<Logger>, ms: seq<Logger>) {
    && |ls| <= |ms|
    && Addresses(ls) <= Addresses(ms)
    && (|ls| <= MAX_LOGGERS ==> |ms| <= MAX_LOGGERS)
    && (Distinct(ls) ==> Distinct(ms))
  }

  lemma SameAddresses(ls: seq<Logger>, ms: seq<Logger>)
    requires |ls| == |ms| && forall i :: 0 <= i < |ls| ==> ls[i].addr == ms[i].addr
    ensures Keeps(ls, ms)
  {
    assert Addresses(ls) == Addresses(ms);
  }

  lemma OneMoreAddress(ls: seq<Logger>, l: Logger)
    requires |ls| < MAX_LOGGERS && forall i :: 0 <= i < |ls| ==> ls[i].addr != l.addr
    ensures Keeps(ls, ls + [l])
  {
  }

  lemma AddKeepsAddresses(r: Registry, ip: IpText, port: int, now: nat)
    ensures Keeps(r.loggers, Add(r, ip, port, now).loggers)
  {
    var ls, ms := r.loggers, Add(r, ip, port, now).loggers;
    if |ms| == |ls| {
      SameAddresses(ls, ms);
    } else {
      OneMoreAddress(ls, Logger(Address(ip.host, Port16(port)), true, now));
    }
  }

  /** The addresses after a step: the same ones in the same places, and at most one more. */
  lemma StepKeepsAddresses(r: Registry, e: Event)
    ensures Keeps(r.loggers, Step(r, e).loggers)
  {
    match e.what
    case Configure(ip, port) => AddKeepsAddresses(r, ip, port, e.at);
    case Receive(Register, a) => AddKeepsAddresses(r, Dotted(a.host), a.port, e.at);
    case _ => SameAddresses(r.loggers, Step(r, e).loggers);
  }

  lemma StepBacked(es: seq<Event>, r: Registry, e: Event, i: nat)
    requires Good(es, r) && Wellformed(e)
    requires r.lastCheck <= e.at
    requires i < |Step(r, e).loggers|
    ensures Backed(es + [e], Step(r, e).loggers[i], Step(r, e).lastCheck)
  {
    var s := Step(r, e);
    if i < |r.loggers| {
      BackedLonger(es, e, r.loggers[i], r.lastCheck);
    }
    if Concerns(e, s.loggers[i].addr) && s.loggers[i].lastActive == e.at {
      BackedNow(es, e, s.loggers[i], s.lastCheck);
    }
  }

  lemma StepGood(es: seq<Event>, r: Registry, e: Event)
    requires Good(es, r) && Wellformed(e)
    requires r.lastCheck <= e.at
    ensures Good(es + [e], Step(r, e))
  {
    StepKeepsAddresses(r, e);
    forall i | 0 <= i < |Step(r, e).loggers| ensures Backed(es + [e], Step(r, e).loggers[i], Step(r, e).lastCheck) {
      StepBacked(es, r, e, i);
    }
  }

  /** The run without its last step. */
  lemma RunSplit(es: seq<Event>) returns (before: seq<Event>, e: Event)
    requires es != []
    ensures es == before + [e] && Run(es) == Step(Run(before), e)
    ensures Clocked(es) ==> Clocked(before) && Wellformed(e) && (before == [] || before[|before| - 1].at <= e.at)
  {
    before, e := es[..|es| - 1], es[|es| - 1];
  }

  lemma {:induction false} RunGood(es: seq<Event>)
    requires Clocked(es)
    ensures Good(es, Run(es))
    decreases |es|
  {
    if es != [] {
      var before, e := RunSplit(es);
      RunGood(before);
      StepGood(before, Run(before), e);
    }
  }

  // --- What every run keeps -----------------------------------------------------------------------

  /** At most ten entries, and no address twice. */
  lemma {:induction false} AtMostTenAllDifferent(es: seq<Event>)
    requires Clocked(es)
    ensures |Run(es).loggers| <= 10 && Distinct(Run(es).loggers)
  {
    RunGood(es);
  }

  /** An address once known stays known, at its place. */
  lemma {:induction false} KnownStaysKnown(es: seq<Event>, more: seq<Event>)
    ensures Addresses(Run(es).loggers) <= Addresses(Run(es + more).loggers)
    decreases |more|
  {
    if more == [] {
      assert es + more == es;
    } else {
      var n := |more| - 1;
      KnownStaysKnown(es, more[..n]);
      assert (es + more)[..|es + more| - 1] == es + more[..n];
      StepKeepsAddresses(Run(es + more[..n]), more[n]);
    }
  }

  /** After a check every active logger was heard from at most 88 seconds ago: it was heard
      from at most 59 seconds before the last check that was carried out, and that one was at
      most 29 seconds ago. */
  lemma ActiveWereHeard(es: seq<Event>, i: nat)
    requires Clocked(es) && es != [] && es[|es| - 1].what.Check?
    requires i < |Run(es).loggers| && Run(es).loggers[i].active
    ensures exists t :: HeardAt(es, Run(es).loggers[i].addr, t) && es[|es| - 1].at - t <= 88
  {
    RunGood(es);
    var before, e := RunSplit(es);
    var l := Run(es).loggers[i];
    assert Backed(es, l, Run(es).lastCheck);
    assert e.at - Run(es).lastCheck < HEARTBEAT_INTERVAL;
  }

  /** The bound is met: heard at 71, still active after the checks at 130 and at 159. */
  lemma BoundIsMet(a: Address, es: seq<Event>)
    requires a.port < 0x1_0000
    requires es == [Event(71, Receive(Register, a)), Event(130, Check({})), Event(159, Check({}))]
    ensures Clocked(es) && Run(es).loggers == [Logger(a, true, 71)]
  {
    assert es[..2] == [es[0], es[1]] && es[..2][..1] == [es[0]] && es[..2][..1][..0] == [];
    assert Run([es[0]]) == Registry([Logger(a, true, 71)], 0);
    assert Run(es[..2]) == Registry([Logger(a, true, 71)], 130);
  }

  // --- One logger at a time -----------------------------------------------------------------------

  datatype Standing = Stranger | Known(active: bool, lastActive: nat)

  function StandingAt(ls: seq<Logger>, k: nat): Standing {
    if k < |ls| then Known(ls[k].active, ls[k].lastActive) else Stranger
  }

  function StandingOf(ls: seq<Logger>, a: Address): Standing {
    StandingAt(ls, Find(ls, a, 0))
  }

  /** What a step does to the standing of a alone. All it takes from the other loggers is whether
      they fill the registry. */
  function Watch(s: Standing, a: Address, full: bool, due: bool, e: Event): Standing {
    match e.what
    case Configure(ip, port) =>
      if !full && ip == Dotted(a.host) && Port16(port) == a.port then Known(true, e.at) else s
    case Receive(Register, from) => if !full && from == a then Known(true, e.at) else s
    case Receive(Unregister, from) => if s.Known? && from == a then s.(active := false) else s
    case Receive(Pong, from) => if s.Known? && from == a then s.(lastActive := e.at) else s
    case Receive(_, from) => s
    case Log(unreachable) => if s.Known? && a in unreachable then s.(active := false) else s
    case Check(unreachable) =>
      if s.Known? && due && (e.at - s.lastActive >= LOGGER_TIMEOUT || a in unreachable) then s.(active := false) else s
  }

  lemma FindUnique(ls: seq<Logger>, a: Address, k: nat)
    requires Distinct(ls) && k < |ls| && ls[k].addr == a
    ensures Find(ls, a, 0) == k
  {
    var m := Find(ls, a, 0);
    assert m <= k;
  }

  lemma FindNone(ls: seq<Logger>, a: Address)
    requires forall k :: 0 <= k < |ls| ==> ls[k].addr != a
    ensures Find(ls, a, 0) == |ls|
  {
  }

  /** Where a is after a step. */
  lemma FindAfter(r: Registry, e: Event, a: Address)
    requires Distinct(r.loggers)
    ensures Find(r.loggers, a, 0) < |r.loggers| ==> Find(Step(r, e).loggers, a, 0) == Find(r.loggers, a, 0)
    ensures Find(r.loggers, a, 0) == |r.loggers| && |Step(r, e).loggers| == |r.loggers|
      ==> Find(Step(r, e).loggers, a, 0) == |r.loggers|
  {
    StepKeepsAddresses(r, e);
    var k, s := Find(r.loggers, a, 0), Step(r, e);
    if k < |r.loggers| {
      assert Addresses(s.loggers)[k] == Addresses(r.loggers)[k];
      FindUnique(s.loggers, a, k);
    } else if |s.loggers| == |r.loggers| {
      forall j | 0 <= j < |s.loggers| ensures s.loggers[j].addr != a {
        assert Addresses(s.loggers)[j] == Addresses(r.loggers)[j];
      }
      FindNone(s.loggers, a);
    }
  }

  lemma FindAdded(ls: seq<Logger>, l: Logger, a: Address)
    requires Distinct(ls + [l]) && Find(ls, a, 0) == |ls|
    ensures Find(ls + [l], a, 0) == if l.addr == a then |ls| else |ls| + 1
  {
    if l.addr == a {
      FindUnique(ls + [l], a, |ls|);
    } else {
      FindNone(ls + [l], a);
    }
  }

  lemma FoundElsewhere(ls: seq<Logger>, a: Address, b: Address)
    requires Find(ls, a, 0) < |ls|
    ensures Find(ls, b, 0) == Find(ls, a, 0) <==> a == b
  {
  }

  lemma AddWatched(r: Registry, ip: IpText, port: int, now: nat, a: Address, k: nat)
    requires |r.loggers| <= MAX_LOGGERS && k == Find(r.loggers, a, 0) < |r.loggers|
    ensures StandingAt(Add(r, ip, port, now).loggers, k)
      == if |r.loggers| < MAX_LOGGERS && ip == Dotted(a.host) && Port16(port) == a.port then Known(true, now)
         else StandingAt(r.loggers, k)
  {
    if ip.Dotted? {
      FoundElsewhere(r.loggers, a, Address(ip.host, Port16(port)));
    }
  }

  lemma RemoveWatched(r: Registry, ip: IpText, port: int, a: Address, k: nat)
    requires k == Find(r.loggers, a, 0) < |r.loggers|
    ensures StandingAt(Remove(r, ip, port).loggers, k)
      == if ip == Dotted(a.host) && Port16(port) == a.port then Known(false, r.loggers[k].lastActive)
         else StandingAt(r.loggers, k)
  {
    if ip.Dotted? {
      FoundElsewhere(r.loggers, a, Address(ip.host, Port16(port)));
    }
  }

  lemma HearWatched(r: Registry, from: Address, now: nat, a: Address, k: nat)
    requires k == Find(r.loggers, a, 0) < |r.loggers|
    ensures StandingAt(Hear(r, from, now).loggers, k)
      == if from == a then Known(r.loggers[k].active, now) else StandingAt(r.loggers, k)
  {
    FoundElsewhere(r.loggers, a, from);
  }

  /** An entry after a step, at the place where it was. */
  lemma EntryIsWatched(r: Registry, e: Event, a: Address, k: nat)
    requires |r.loggers| <= MAX_LOGGERS && Wellformed(e) && a.port < 0x1_0000
    requires k == Find(r.loggers, a, 0) < |r.loggers|
    ensures StandingAt(Step(r, e).loggers, k)
      == Watch(StandingAt(r.loggers, k), a, |r.loggers| == MAX_LOGGERS, CheckDue(r, e.at), e)
  {
    match e.what
    case Configure(ip, port) => AddWatched(r, ip, port, e.at, a, k);
    case Receive(Register, from) => AddWatched(r, Dotted(from.host), from.port, e.at, a, k);
    case Receive(Unregister, from) => RemoveWatched(r, Dotted(from.host), from.port, a, k);
    case Receive(Pong, from) => HearWatched(r, from, e.at, a, k);
    case _ =>
  }

  /** A logger's standing when it has an entry. */
  lemma KnownIsWatched(r: Registry, e: Event, a: Address)
    requires Distinct(r.loggers) && |r.loggers| <= MAX_LOGGERS && Wellformed(e) && a.port < 0x1_0000
    requires Find(r.loggers, a, 0) < |r.loggers|
    ensures StandingOf(Step(r, e).loggers, a)
      == Watch(StandingOf(r.loggers, a), a, |r.loggers| == MAX_LOGGERS, CheckDue(r, e.at), e)
  {
    var k := Find(r.loggers, a, 0);
    EntryIsWatched(r, e, a, k);
    FindAfter(r, e, a);
    assert StandingOf(Step(r, e).loggers, a) == StandingAt(Step(r, e).loggers, k);
  }

  lemma AddStranger(r: Registry, ip: IpText, port: int, now: nat, a: Address)
    requires Distinct(r.loggers) && |r.loggers| <= MAX_LOGGERS
    requires Find(r.loggers, a, 0) == |r.loggers|
    ensures StandingOf(Add(r, ip, port, now).loggers, a)
      == if |r.loggers| < MAX_LOGGERS && ip == Dotted(a.host) && Port16(port) == a.port then Known(true, now)
         else Stranger
  {
    AddKeepsAddresses(r, ip, port, now);
    var ls, ms := r.loggers, Add(r, ip, port, now).loggers;
    if |ms| > |ls| {
      FindAdded(ls, Logger(Address(ip.host, Port16(port)), true, now), a);
    } else {
      FindNone(ms, a);
    }
  }

  /** Only a registration adds an address. */
  lemma OthersAddNobody(r: Registry, e: Event)
    requires !e.what.Configure? && !(e.what.Receive? && e.what.cmd == Register)
    ensures |Step(r, e).loggers| == |r.loggers|
    ensures forall i :: 0 <= i < |r.loggers| ==> Step(r, e).loggers[i].addr == r.loggers[i].addr
  {
  }

  /** The standing of an address without an entry. */
  lemma StrangerIsWatched(r: Registry, e: Event, a: Address)
    requires Distinct(r.loggers) && |r.loggers| <= MAX_LOGGERS && Wellformed(e) && a.port < 0x1_0000
    requires Find(r.loggers, a, 0) == |r.loggers|
    ensures StandingOf(Step(r, e).loggers, a)
      == Watch(StandingOf(r.loggers, a), a, |r.loggers| == MAX_LOGGERS, CheckDue(r, e.at), e)
  {
    match e.what
    case Configure(ip, port) => AddStranger(r, ip, port, e.at, a);
    case Receive(Register, from) => AddStranger(r, Dotted(from.host), from.port, e.at, a);
    case _ =>
      OthersAddNobody(r, e);
      FindNone(Step(r, e).loggers, a);
  }

  /** The registry is no more than its loggers watched one by one. */
  lemma LoggersAreIndependent(r: Registry, e: Event, a: Address)
    requires Distinct(r.loggers) && |r.loggers| <= MAX_LOGGERS && Wellformed(e) && a.port < 0x1_0000
    ensures StandingOf(Step(r, e).loggers, a)
      == Watch(StandingOf(r.loggers, a), a, |r.loggers| == MAX_LOGGERS, CheckDue(r, e.at), e)
  {
    if Find(r.loggers, a, 0) < |r.loggers| {
      KnownIsWatched(r, e, a);
    } else {
      StrangerIsWatched(r, e, a);
    }
  }

  /** A known logger's time is no older than any of its answers. */
  lemma {:induction false} AnswersCount(es: seq<Event>, a: Address, j: nat)
    requires Clocked(es) && a.port < 0x1_0000
    requires j < |es| && es[j].what == Receive(Pong, a)
    requires StandingOf(Run(es).loggers, a).Known?
    ensures es[j].at <= StandingOf(Run(es).loggers, a).lastActive
    decreases |es|
  {
    var before, e := RunSplit(es);
    AtMostTenAllDifferent(before);
    TimeAfter(Run(before), e, a);
    assert es[j].at <= e.at;
    if j < |before| {
      assert before[j] == es[j];
      if StandingOf(Run(before).loggers, a).Known? {
        AnswersCount(before, a, j);
      }
    }
  }

  /** A time is either kept or new, and an answer makes it new. */
  lemma TimeAfter(r: Registry, e: Event, a: Address)
    requires Distinct(r.loggers) && |r.loggers| <= MAX_LOGGERS && Wellformed(e) && a.port < 0x1_0000
    ensures var s, t := StandingOf(r.loggers, a), StandingOf(Step(r, e).loggers, a);
      t.Known? ==> t.lastActive == e.at || (s.Known? && t.lastActive == s.lastActive && e.what != Receive(Pong, a))
  {
    LoggersAreIndependent(r, e, a);
  }

  ghost predicate AnsweredLately(es: seq<Event>, a: Address, now: nat) {
    exists j :: 0 <= j < |es| && es[j].what == Receive(Pong, a) && now - es[j].at < LOGGER_TIMEOUT
  }

  /** Nothing goes wrong with a in step k: it does not leave, it can be reached, and a check
      that is due comes less than a minute after an answer. */
  ghost predicate Harmless(es: seq<Event>, a: Address, k: nat)
    requires k < |es|
  {
    match es[k].what
    case Receive(cmd, from) => !(cmd == Unregister && from == a)
    case Log(unreachable) => a !in unreachable
    case Check(unreachable) =>
      CheckDue(Run(es[..k]), es[k].at) ==> a !in unreachable && AnsweredLately(es[..k], a, es[k].at)
    case _ => true
  }

  /** A logger that answers in time stays active, whatever the others do. */
  lemma {:induction false} AnsweringKeepsActive(es: seq<Event>, m: nat, a: Address)
    requires Clocked(es) && a.port < 0x1_0000 && m <= |es|
    requires a in ActiveAddresses(Run(es[..m]).loggers)
    requires forall k :: m <= k < |es| ==> Harmless(es, a, k)
    ensures a in ActiveAddresses(Run(es).loggers)
    decreases |es|
  {
    if m == |es| {
      assert es[..m] == es;
    } else {
      var before, e := RunSplit(es);
      AtMostTenAllDifferent(before);
      AtMostTenAllDifferent(es);
      assert before[..m] == es[..m];
      forall k | m <= k < |before| ensures Harmless(before, a, k) {
        assert Harmless(es, a, k);
        assert before[..k] == es[..k];
      }
      AnsweringKeepsActive(before, m, a);
      ActiveStanding(Run(before).loggers, a);
      ActiveStanding(Run(es).loggers, a);
      LoggersAreIndependent(Run(before), e, a);
      assert Harmless(es, a, |before|) && es[..|before|] == before;
      if e.what.Check? && CheckDue(Run(before), e.at) {
        var j :| 0 <= j < |before| && before[j].what == Receive(Pong, a) && e.at - before[j].at < LOGGER_TIMEOUT;
        AnswersCount(before, a, j);
      }
    }
  }

  // --- A full registry ----------------------------------------------------------------------------

  function ActiveAddresses(ls: seq<Logger>): set<Address> {
    set i | 0 <= i < |ls| && ls[i].active :: ls[i].addr
  }

  lemma ActiveUpTo(ls: seq<Logger>, l: Logger)
    ensures ActiveAddresses(ls + [l]) == ActiveAddresses(ls) + if l.active then {l.addr} else {}
  {
    var both := ls + [l];
    assert both[|ls|] == l;
    forall a | a in ActiveAddresses(ls) ensures a in ActiveAddresses(both) {
      var i :| 0 <= i < |ls| && ls[i].active && ls[i].addr == a;
      assert both[i] == ls[i];
    }
  }

  /** STATUS reports how many addresses are active. */
  lemma {:induction false} StatusCounts(ls: seq<Logger>)
    requires Distinct(ls)
    ensures CountActive(ls) == |ActiveAddresses(ls)|
  {
    if ls != [] {
      var n := |ls| - 1;
      StatusCounts(ls[..n]);
      assert ls == ls[..n] + [ls[n]];
      ActiveUpTo(ls[..n], ls[n]);
      assert ls[n].addr !in ActiveAddresses(ls[..n]);
    }
  }

  /** A logger that registers is active afterwards, unless the registry was full and it was
      not active before: the capacity is tested before the address is looked up. */
  lemma RegisterActivatesIff(r: Registry, a: Address, now: nat)
    requires Distinct(r.loggers) && |r.loggers| <= MAX_LOGGERS && a.port < 0x1_0000
    ensures a in ActiveAddresses(Step(r, Event(now, Receive(Register, a))).loggers)
      <==> |r.loggers| < MAX_LOGGERS || a in ActiveAddresses(r.loggers)
  {
    var e := Event(now, Receive(Register, a));
    LoggersAreIndependent(r, e, a);
    StepKeepsAddresses(r, e);
    ActiveStanding(r.loggers, a);
    ActiveStanding(Step(r, e).loggers, a);
  }

  lemma ActiveStanding(ls: seq<Logger>, a: Address)
    requires Distinct(ls)
    ensures a in ActiveAddresses(ls) <==> StandingOf(ls, a).Known? && StandingOf(ls, a).active
  {
    if a in ActiveAddresses(ls) {
      var i :| 0 <= i < |ls| && ls[i].active && ls[i].addr == a;
      FindUnique(ls, a, i);
    }
  }

  /** Once the registry is full no logger ever becomes active again, not even a known one that
      only missed its heartbeats. */
  lemma {:induction false} FullOnlyShrinks(es: seq<Event>, more: seq<Event>)
    requires |Run(es).loggers| == MAX_LOGGERS
    ensures |Run(es + more).loggers| == MAX_LOGGERS
    ensures ActiveAddresses(Run(es + more).loggers) <= ActiveAddresses(Run(es).loggers)
    decreases |more|
  {
    if more == [] {
      assert es + more == es;
    } else {
      var n := |more| - 1;
      FullOnlyShrinks(es, more[..n]);
      assert (es + more)[..|es + more| - 1] == es + more[..n];
      FullStep(Run(es + more[..n]), more[n]);
    }
  }

  lemma FullStep(r: Registry, e: Event)
    requires |r.loggers| == MAX_LOGGERS
    ensures |Step(r, e).loggers| == MAX_LOGGERS
    ensures ActiveAddresses(Step(r, e).loggers) <= ActiveAddresses(r.loggers)
  {
  }
}
