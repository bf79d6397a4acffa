/** From the server's counters to the numbers on a monitor. */
module GalleryMonitor {
  import opened Sums
  import opened GalleryServer
  import opened GalleryBook
  import opened GalleryStatusText

  /** In every run of arbitrary clients from the start, the server's counters keep to their limits,
      and every open connection that has sent MONITOR since it began was last sent the present
      six counters. */
  lemma MonitorsSeeThePresent(events: seq<Input>, s: Server, b: Book)
    requires Serve(Start(), events) == Some(s) && Keep(Blank(), events) == Some(b)
    ensures WellFormed(s) && 0 <= s.current <= 25 && forall p :: 0 <= p < 5 ==> 0 <= s.counts[p] <= 5
    ensures forall i :: 0 <= i < 300 && b.slots[i].asked ==> s.links[i].shown == Some([s.current] + s.counts)
  {
    ServerFollowsBook(events);
  }

  /** And what it reads, when it reads the last line it was sent and whatever follows it, are
      the present number of visitors and the present painting counters. */
  lemma MonitorsReadThePresent(events: seq<Input>, s: Server, b: Book, i: nat, more: string)
    requires Serve(Start(), events) == Some(s) && Keep(Blank(), events) == Some(b)
    requires i < 300 && b.slots[i].asked
    ensures WellFormed(s) && s.links[i].shown.Some?
    ensures ScanInts(StatusText(s.links[i].shown.value) + more, 6) == Some([s.current] + s.counts)
  {
    MonitorsSeeThePresent(events, s, b);
    StatusRecovered([s.current] + s.counts, more);
  }

  /** A connection that sends MONITOR is told at once. */
  lemma MonitorIsTold(s: Server, b: Book, i: nat)
    requires Agrees(s, b) && i < 300 && b.slots[i].connected
    ensures Handle(s, i, MonitorText).0.links[i].shown == Some([s.current] + s.counts)
    ensures Note(b, Receive(i, MonitorText)).slots[i].asked
  {
    HandleAnnounces(s, b, i, MonitorText);
    assert SlotAgrees(s.clients[i], b.slots[i]);
  }
}
