/** Runs of the correlation engine judged by their inputs alone: what is fed, and when. */
module CorrelationOrder {
  import opened Evidence
  import opened CorrelationSpec
  import opened CorrelationScan
  import opened CorrelationRings
  import opened CorrelationInvariant
  import opened CorrelationRuns

  // ---------------------------------------------------------------- runs and inputs

  /** A cycle enumerates the two hash maps in some order; nothing else is asked of an event. */
  ghost predicate Iterates(w: World, event: Event) {
    event.Correlate? ==> Enumerates(event.endpoints, w.s.rings.Keys) && Enumerates(event.order, w.s.book.chains.Keys)
  }

  /** `events` lead from the fresh engine to `w`. */
  ghost predicate Played(events: seq<Event>, w: World)
    decreases |events|
  {
    if events == [] then w.s == EMPTY_ENGINE && w.log == []
    else
      var front, last := events[..|events| - 1], events[|events| - 1];
      exists before :: Played(front, before) && Iterates(before, last) && w == Next(before, last)
  }

  /** A line that enters a ring, and its time. */
  predicate Heard(event: Event) { event.Feed? && IsBehavioural(event.line) }

  function TimeOf(event: Event): int
    requires event.Feed?
  {
    StoredRecord(event.endpoint, event.line).time
  }

  predicate SameSource(a: Event, b: Event) { Heard(a) && Heard(b) && a.endpoint == b.endpoint }

  /** `b` comes after `a`: the clock has not gone back, nor have the times of one endpoint, where both have one. */
  predicate Succeeds(a: Event, b: Event) {
    && a.now <= b.now
    && (SameSource(a, b) && TimeOf(a) != 0 && TimeOf(b) != 0 ==> TimeOf(a) <= TimeOf(b))
  }

  /** No line is ahead of the clock. */
  predicate NotAhead(event: Event) { Heard(event) ==> TimeOf(event) <= event.now }

  predicate InputOrdered(events: seq<Event>) {
    && (forall i :: 0 <= i < |events| ==> NotAhead(events[i]))
    && forall i, j :: 0 <= i < j < |events| ==> Succeeds(events[i], events[j])
  }

  predicate Timed(event: Event) { Heard(event) ==> TimeOf(event) != 0 }

  /** Every line that enters a ring carries a time. */
  predicate AllTimed(events: seq<Event>) { forall i :: 0 <= i < |events| ==> Timed(events[i]) }

  predicate Fits(event: Event) {
    Heard(event) ==> TimeOf(event) >= 0 && ShortSession(StoredRecord(event.endpoint, event.line))
  }

  /** No line is before the epoch and every port session fits the prefilter. */
  predicate InputFits(events: seq<Event>) { forall i :: 0 <= i < |events| ==> Fits(events[i]) }

  // ---------------------------------------------------------------- a cycle keeps the records it does not age

  lemma {:induction false} ScanSame(p: Scan, i: nat, j: nat, w: int, now: int)
    ensures var r := TwoPointerScan(p, i, j, w, now); SameEvidence(p.a, r.a) && SameEvidence(p.b, r.b)
    decreases |p.a| - i
  {
    hide JoinIfAny, FirstInWindow, Slide, Scannable;
    if i < |p.a| && p.joins < MAX_JOINS_PER_CYCLE {
      if !Scannable(p.a[i]) {
        ScanSame(p, i + 1, j, w, now);
      } else {
        var time := p.a[i].record.time;
        var j' := Slide(p.b, j, time - w);
        var k := FirstInWindow(p.a[i], p.b, j', time + w);
        var p' := JoinIfAny(p, i, k, now);
        JoinKeepsEvidence(p, i, k, now);
        ScanSame(p', i + 1, j', w, now);
        var r := TwoPointerScan(p', i + 1, j', w, now);
        SameEvidenceTwice(p.a, p'.a, r.a);
        SameEvidenceTwice(p.b, p'.b, r.b);
      }
    }
  }

  /** The same rings holding the same evidence. */
  predicate Kin(s: State, s': State) {
    && s'.rings.Keys == s.rings.Keys && s'.nextRecord == s.nextRecord
    && forall e <- s.rings :: SameEvidence(s.rings[e], s'.rings[e])
  }

  lemma SameAsItself(ring: seq<RingRecord>)
    ensures SameEvidence(ring, ring)
  {
  }

  lemma PairKin(c: Progress, e: string, f: string, now: int)
    requires e in c.s.rings && f in c.s.rings && e != f
    ensures Kin(c.s, ScanPair(TwoPointer, c, e, f, now).s)
  {
    hide TwoPointerScan, SameEvidence;
    ScanSame(ScanOf(c, e, f), 0, 0, Prefilter(e, f), now);
    forall g <- c.s.rings ensures SameEvidence(c.s.rings[g], c.s.rings[g]) { SameAsItself(c.s.rings[g]); }
  }

  lemma KinTwice(s: State, s1: State, s2: State)
    requires Kin(s, s1) && Kin(s1, s2)
    ensures Kin(s, s2)
  {
    hide SameEvidence;
    forall e <- s.rings ensures SameEvidence(s.rings[e], s2.rings[e]) {
      SameEvidenceTwice(s.rings[e], s1.rings[e], s2.rings[e]);
    }
  }

  lemma KinItself(s: State)
    ensures Kin(s, s)
  {
  }

  lemma {:induction false} PairsKin(c: Progress, endpoints: seq<string>, i: nat, j: nat, now: int)
    requires i < j && Enumerates(endpoints, c.s.rings.Keys)
    ensures Kin(c.s, ScanFrom(TwoPointer, c, endpoints, i, j, now).s)
    decreases |endpoints| - i, |endpoints| - j
  {
    hide ScanPair, SameEvidence;
    if i >= |endpoints| || c.joins >= MAX_JOINS_PER_CYCLE {
      KinItself(c.s);
    } else if j >= |endpoints| {
      PairsKin(c, endpoints, i + 1, i + 2, now);
    } else {
      assert endpoints[i] in endpoints && endpoints[j] in endpoints;
      var c' := ScanPair(TwoPointer, c, endpoints[i], endpoints[j], now);
      PairKin(c, endpoints[i], endpoints[j], now);
      PairsKin(c', endpoints, i, j + 1, now);
      KinTwice(c.s, c'.s, ScanFrom(TwoPointer, c', endpoints, i, j + 1, now).s);
    }
  }

  /** Ageing cuts a prefix off every ring. */
  predicate Cut(ring: seq<RingRecord>, ring': seq<RingRecord>) {
    |ring'| <= |ring| && ring' == ring[|ring| - |ring'|..]
  }

  lemma PrunedIsCut(ring: seq<RingRecord>, now: int)
    ensures Cut(ring, PruneRing(ring, now))
  {
    hide PruneRing;
    var n := PrunedIsSuffix(ring, now);
  }

  lemma {:induction false} ExpireKeepsNext(s: State, out: seq<Revision>, order: seq<nat>, k: nat, now: int)
    ensures ExpireFrom(s, out, order, k, now).0.nextRecord == s.nextRecord
    decreases |order| - k
  {
    if k < |order| {
      if order[k] in s.book.chains && Expired(s.book.chains[order[k]], now) {
        ExpireKeepsNext(s.(book := s.book.(chains := s.book.chains - {order[k]}), expired := s.expired + 1),
                        out + [Closing(order[k], s.book.chains[order[k]])], order, k + 1, now);
      } else {
        ExpireKeepsNext(s, out, order, k + 1, now);
      }
    }
  }

  lemma AgedRings(s: State, endpoints: seq<string>, order: seq<nat>, now: int)
    requires Enumerates(endpoints, s.rings.Keys)
    ensures var aged := Aged(s, endpoints, order, now).0;
            && aged.rings.Keys == s.rings.Keys && aged.nextRecord == s.nextRecord
            && forall e <- s.rings :: Cut(s.rings[e], aged.rings[e])
  {
    hide PruneFrom, ExpireFrom, PruneRing, Cut, Enumerates;
    var pruned := PruneFrom(s, endpoints, 0, now);
    EnumeratedKeys(endpoints, s.rings.Keys);
    PruneAll(s, endpoints, now);
    PrunedNext(s, endpoints, now);
    ExpireKeepsRings(pruned, [], order, 0, now);
    ExpireKeepsNext(pruned, [], order, 0, now);
    forall e <- s.rings ensures Cut(s.rings[e], pruned.rings[e]) { PrunedIsCut(s.rings[e], now); }
  }

  lemma PrunedNext(s: State, endpoints: seq<string>, now: int)
    requires Enumerates(endpoints, s.rings.Keys)
    ensures PruneFrom(s, endpoints, 0, now).nextRecord == s.nextRecord
  {
    hide PruneFrom, PruneRing;
    EnumeratedKeys(endpoints, s.rings.Keys);
    PrunedRings(s, endpoints, 0, now);
  }

  /** A whole cycle: rings are cut, and otherwise hold the same evidence. */
  lemma CycleRings(s: State, endpoints: seq<string>, order: seq<nat>, now: int)
    requires Enumerates(endpoints, s.rings.Keys)
    ensures var aged, r := Aged(s, endpoints, order, now).0, Cycle(TwoPointer, s, endpoints, order, now).s;
            && aged.rings.Keys == s.rings.Keys && aged.nextRecord == s.nextRecord
            && (forall e <- s.rings :: Cut(s.rings[e], aged.rings[e]))
            && Kin(aged, r)
  {
    hide Aged, ScanFrom, Enumerates, Cut, Kin;
    AgedRings(s, endpoints, order, now);
    var aged := Aged(s, endpoints, order, now);
    PairsKin(Progress(aged.0, 0, aged.1), endpoints, 0, 1, now);
  }

  // ---------------------------------------------------------------- where the records of a ring come from

  predicate FedBy(event: Event, e: string, record: Record) {
    Heard(event) && event.endpoint == e && StoredRecord(e, event.line) == record
  }

  predicate Fed(events: seq<Event>, e: string, record: Record) {
    exists i :: 0 <= i < |events| && FedBy(events[i], e, record)
  }

  predicate AllFed(events: seq<Event>, s: State) {
    forall e <- s.rings, x <- s.rings[e] :: Fed(events, e, x.record)
  }

  lemma FedEarlier(events: seq<Event>, event: Event, e: string, record: Record)
    requires Fed(events, e, record)
    ensures Fed(events + [event], e, record)
  {
    hide FedBy;
    var i :| 0 <= i < |events| && FedBy(events[i], e, record);
    assert (events + [event])[i] == events[i];
  }

  /** What an ingested ring holds: its old records and the new one. */
  lemma IngestedRing(s: State, endpoint: string, line: string, e: string, x: RingRecord)
    requires e in Ingest(s, endpoint, line).rings && x in Ingest(s, endpoint, line).rings[e]
    ensures (e in s.rings && x in s.rings[e])
            || (IsBehavioural(line) && e == endpoint
                && x == RingRecord(s.nextRecord, StoredRecord(endpoint, line), 0, []))
  {
    hide StoredRecord, IsBehavioural;
  }

  lemma FedStep(events: seq<Event>, w: World, event: Event)
    requires AllFed(events, w.s) && Iterates(w, event)
    ensures AllFed(events + [event], Next(w, event).s)
  {
    hide Ingest, Cycle, Fed, IsBehavioural, StoredRecord, Enumerates;
    var s' := Next(w, event).s;
    forall e <- s'.rings, x <- s'.rings[e] ensures Fed(events + [event], e, x.record) {
      match event
      case Feed(now, endpoint, line) =>
        IngestedRing(w.s, endpoint, line, e, x);
        if e in w.s.rings && x in w.s.rings[e] { FedEarlier(events, event, e, x.record); }
        else { FedNow(events, event, e, x.record); }
      case Correlate(now, endpoints, order) =>
        var y := CycledRecord(w.s, endpoints, order, now, e, x);
        FedEarlier(events, event, e, x.record);
    }
  }

  lemma FedNow(events: seq<Event>, event: Event, e: string, record: Record)
    requires FedBy(event, e, record)
    ensures Fed(events + [event], e, record)
  {
    hide FedBy;
    assert (events + [event])[|events|] == event;
  }

  lemma CycledRecord(s: State, endpoints: seq<string>, order: seq<nat>, now: int, e: string, x: RingRecord)
    returns (y: RingRecord)
    requires Enumerates(endpoints, s.rings.Keys)
    requires e in Cycle(TwoPointer, s, endpoints, order, now).s.rings
             && x in Cycle(TwoPointer, s, endpoints, order, now).s.rings[e]
    ensures e in s.rings && y in s.rings[e] && y.record == x.record
  {
    hide Cycle, Aged, Enumerates;
    CycleRings(s, endpoints, order, now);
    var aged, ring := Aged(s, endpoints, order, now).0.rings[e], Cycle(TwoPointer, s, endpoints, order, now).s.rings[e];
    var i :| 0 <= i < |ring| && ring[i] == x;
    y := aged[i];
    assert y == s.rings[e][|s.rings[e]| - |aged| + i];
  }

  lemma {:induction false} EveryRecordWasFed(events: seq<Event>, w: World)
    requires Played(events, w)
    ensures AllFed(events, w.s)
    decreases |events|
  {
    hide Iterates, Next, Fed;
    if events != [] {
      var front, last := events[..|events| - 1], events[|events| - 1];
      var before :| Played(front, before) && Iterates(before, last) && w == Next(before, last);
      EveryRecordWasFed(front, before);
      FedStep(front, before, last);
      assert events == front + [last];
    }
  }

  // ---------------------------------------------------------------- ordered inputs make ordered rings

  predicate RingOrdered(ring: seq<RingRecord>, e: string) {
    TimeOrdered(ring) && forall x <- ring :: x.record.endpoint == e
  }

  predicate Ordered(s: State) { forall e <- s.rings :: RingOrdered(s.rings[e], e) }

  lemma CutOrdered(ring: seq<RingRecord>, ring': seq<RingRecord>, e: string)
    requires RingOrdered(ring, e) && Cut(ring, ring')
    ensures RingOrdered(ring', e)
  {
  }

  lemma KinOrdered(ring: seq<RingRecord>, ring': seq<RingRecord>, e: string)
    requires RingOrdered(ring, e) && SameEvidence(ring, ring')
    ensures RingOrdered(ring', e)
  {
    SameEvidenceOrdered(ring, ring');
    forall x <- ring' ensures x.record.endpoint == e {
      var i :| 0 <= i < |ring'| && ring'[i] == x;
      assert ring[i] in ring;
    }
  }

  lemma CycleOrdered(s: State, endpoints: seq<string>, order: seq<nat>, now: int)
    requires Ordered(s) && Enumerates(endpoints, s.rings.Keys)
    ensures Ordered(Cycle(TwoPointer, s, endpoints, order, now).s)
  {
    hide RingOrdered, Cycle, Aged, Enumerates, Cut, SameEvidence;
    CycleRings(s, endpoints, order, now);
    var aged, r := Aged(s, endpoints, order, now).0, Cycle(TwoPointer, s, endpoints, order, now).s;
    forall e <- r.rings ensures RingOrdered(r.rings[e], e) {
      CutOrdered(s.rings[e], aged.rings[e], e);
      KinOrdered(aged.rings[e], r.rings[e], e);
    }
  }

  lemma IngestOrdered(s: State, endpoint: string, line: string, now: int)
    requires Ordered(s) && (IsBehavioural(line) ==> Timely(s, endpoint, line, now))
    ensures Ordered(Ingest(s, endpoint, line))
  {
    hide TimeOrdered, StoredRecord, IsBehavioural;
    if IsBehavioural(line) {
      StoredAt(endpoint, line);
      var x := RingRecord(s.nextRecord, StoredRecord(endpoint, line), 0, []);
      EmptyOrdered();
      AppendedOrdered(RingOf(s, endpoint), x);
      TailOrdered(RingOf(s, endpoint) + [x]);
    }
  }

  lemma EmptyOrdered()
    ensures TimeOrdered([])
  {
  }

  lemma TailOrdered(ring: seq<RingRecord>)
    requires TimeOrdered(ring) && ring != []
    ensures TimeOrdered(ring[1..])
  {
  }

  /** On ordered inputs the next line is timely: every time in its ring was fed before it. */
  lemma FeedIsTimely(front: seq<Event>, s: State, last: Event)
    requires InputOrdered(front + [last]) && AllFed(front, s) && Heard(last)
    ensures Timely(s, last.endpoint, last.line, last.now)
  {
    hide StoredRecord, IsBehavioural;
    var events := front + [last];
    assert events[|front|] == last && NotAhead(last);
    if TimeOf(last) != 0 {
      forall x <- RingOf(s, last.endpoint) | x.record.time != 0 ensures x.record.time <= TimeOf(last) {
        assert Fed(front, last.endpoint, x.record);
        var i :| 0 <= i < |front| && FedBy(front[i], last.endpoint, x.record);
        assert events[i] == front[i] && Succeeds(events[i], events[|front|]);
      }
    }
  }

  lemma OrderedFront(events: seq<Event>)
    requires InputOrdered(events) && events != []
    ensures InputOrdered(events[..|events| - 1]) && events == events[..|events| - 1] + [events[|events| - 1]]
  {
    hide Succeeds, NotAhead;
  }

  lemma {:induction false} EveryRingIsOrdered(events: seq<Event>, w: World)
    requires Played(events, w) && InputOrdered(events)
    ensures Ordered(w.s)
    decreases |events|
  {
    hide InputOrdered, Ordered, Ingest, Cycle, Timely, AllFed, IsBehavioural, Enumerates;
    if events == [] {
      NothingOrdered();
    } else {
      var front, last := events[..|events| - 1], events[|events| - 1];
      var before :| Played(front, before) && Iterates(before, last) && w == Next(before, last);
      OrderedFront(events);
      EveryRingIsOrdered(front, before);
      EveryRecordWasFed(front, before);
      match last
      case Feed(now, endpoint, line) =>
        if Heard(last) { FeedIsTimely(front, before.s, last); }
        IngestOrdered(before.s, endpoint, line, now);
      case Correlate(now, endpoints, order) =>
        CycleOrdered(before.s, endpoints, order, now);
    }
  }

  lemma NothingOrdered()
    ensures Ordered(EMPTY_ENGINE)
  {
  }

  lemma FitsRing(events: seq<Event>, s: State, e: string)
    requires AllFed(events, s) && InputFits(events) && e in s.rings
    ensures forall x <- s.rings[e] :: x.record.time >= 0 && ShortSession(x.record)
  {
    hide ShortSession, StoredRecord, IsBehavioural;
    forall x <- s.rings[e] ensures x.record.time >= 0 && ShortSession(x.record) {
      assert Fed(events, e, x.record);
      var i :| 0 <= i < |events| && FedBy(events[i], e, x.record);
      assert Fits(events[i]);
    }
  }

  /** Over every run whose times are in order, none before the epoch, and whose port sessions fit the prefilter:
      a cycle links exactly the records that the naive scan of all pairs links. */
  lemma EveryCycleIsNaive(events: seq<Event>, w: World, endpoints: seq<string>, order: seq<nat>, now: int)
    requires Played(events, w) && InputOrdered(events) && InputFits(events) && Enumerates(endpoints, w.s.rings.Keys)
    ensures Cycle(TwoPointer, w.s, endpoints, order, now) == Cycle(Naive, w.s, endpoints, order, now)
  {
    hide Played, InputOrdered, InputFits, AllFed, Cycle, Enumerates, ShortSession, TimeOrdered;
    EveryRingIsOrdered(events, w);
    EveryRecordWasFed(events, w);
    forall e <- w.s.rings ensures OrderlyRing(w.s.rings[e], e) {
      FitsRing(events, w.s, e);
      assert RingOrdered(w.s.rings[e], e);
    }
    CycleIsNaive(w.s, endpoints, order, now);
  }

  // ---------------------------------------------------------------- final is final on timed inputs

  lemma TimedRings(events: seq<Event>, s: State)
    requires AllFed(events, s) && AllTimed(events)
    ensures forall e <- s.rings, x <- s.rings[e] :: x.record.time != 0
  {
    hide StoredRecord, IsBehavioural;
    forall e <- s.rings, x <- s.rings[e] ensures x.record.time != 0 {
      assert Fed(events, e, x.record);
      var i :| 0 <= i < |events| && FedBy(events[i], e, x.record);
      assert Timed(events[i]);
    }
  }

  lemma NextAdmissible(front: seq<Event>, before: World, last: Event)
    requires Played(front, before) && Iterates(before, last)
    requires InputOrdered(front + [last]) && AllTimed(front + [last]) && before.clock <= last.now
    ensures Admissible(before, last)
  {
    hide Played, InputOrdered, Timely, NothingHeldBack, AllFed, IsBehavioural, Enumerates;
    EveryRecordWasFed(front, before);
    assert forall i :: 0 <= i < |front| ==> (front + [last])[i] == front[i];
    TimedRings(front, before.s);
    match last
    case Feed(now, endpoint, line) =>
      if Heard(last) { FeedIsTimely(front, before.s, last); }
    case Correlate(now, endpoints, order) =>
      TimesAreEnough(before.s, now);
  }

  lemma ClockAfter(w: World, event: Event)
    ensures Next(w, event).clock == event.now && forall clock :: Next(w.(clock := clock), event) == Next(w, event)
  {
    hide Cycle, Ingest;
  }

  /** A run on ordered inputs that all carry a time is admissible: nothing is ever held back. */
  lemma {:induction false} TimedInputIsAdmissible(events: seq<Event>, w: World)
    requires Played(events, w) && InputOrdered(events) && AllTimed(events)
    ensures Reaches(events, w)
    ensures events != [] ==> w.clock == events[|events| - 1].now
    decreases |events|
  {
    hide InputOrdered, Iterates, Admissible, Next, AllTimed;
    if events != [] {
      var front, last := events[..|events| - 1], events[|events| - 1];
      var before :| Played(front, before) && Iterates(before, last) && w == Next(before, last);
      OrderedFront(events);
      TimedFront(events);
      TimedInputIsAdmissible(front, before);
      ClockAfter(before, last);
      if front == [] {
        var start := before.(clock := last.now);
        SameIteration(before, start, last);
        NextAdmissible(front, start, last);
        OneMoreReached(events, start, w);
      } else {
        ClockMoves(events);
        NextAdmissible(front, before, last);
        OneMoreReached(events, before, w);
      }
    }
  }

  lemma OneMoreReached(events: seq<Event>, before: World, w: World)
    requires events != [] && Reaches(events[..|events| - 1], before)
    requires Admissible(before, events[|events| - 1]) && w == Next(before, events[|events| - 1])
    ensures Reaches(events, w)
  {
    hide Admissible, Next;
  }

  lemma SameIteration(w: World, start: World, event: Event)
    requires Iterates(w, event) && start.s == w.s
    ensures Iterates(start, event)
  {
  }

  lemma TimedFront(events: seq<Event>)
    requires AllTimed(events) && events != []
    ensures AllTimed(events[..|events| - 1])
  {
    hide Timed;
  }

  lemma ClockMoves(events: seq<Event>)
    requires InputOrdered(events) && |events| >= 2
    ensures events[|events| - 2].now <= events[|events| - 1].now
  {
    assert Succeeds(events[|events| - 2], events[|events| - 1]);
  }

  /** "Final" is final over every run, judged by its inputs: if the clock and the times of each endpoint do not go back,
      no line is ahead of the clock, and every line carries a time, then after the final line of a group nothing of that
      group is published, its id names no live group, and no record in a ring refers to it. */
  lemma FinalIsFinalOnTimedInput(events: seq<Event>, w: World, i: nat)
    requires Played(events, w) && InputOrdered(events) && AllTimed(events) && i < |w.log| && w.log[i].final
    ensures w.log[i].group !in w.s.book.chains
    ensures forall j :: i < j < |w.log| ==> w.log[j].group != w.log[i].group
    ensures forall e <- w.s.rings, x <- w.s.rings[e] :: x.group != w.log[i].group
  {
    hide Played, InputOrdered, AllTimed, Reaches;
    TimedInputIsAdmissible(events, w);
    FinalIsFinal(events, w, i);
  }
}
