/** Whole runs of the correlation engine: when "final" is final, and what every run keeps. */
module CorrelationRuns {
  import opened CorrelationSpec
  import opened CorrelationScan
  import opened CorrelationGroups
  import opened CorrelationLog
  import opened CorrelationRings
  import opened CorrelationInvariant

  // ---------------------------------------------------------------- when ageing is safe

  /** A record without a time stands before a record whose group is due to close. */
  predicate HeldBack(ring: seq<RingRecord>, book: Book, now: int) {
    exists i, j :: 0 <= i < j < |ring| && ring[i].record.time == 0
                   && ring[j].group in book.chains && Expired(book.chains[ring[j].group], now)
  }

  predicate RingFresh(ring: seq<RingRecord>, book: Book, now: int) {
    forall x <- ring :: x.group in book.chains ==> !Expired(book.chains[x.group], now)
  }

  /** A linked record of an expiring group is itself too old to stay. */
  lemma ExpiringIsOld(x: RingRecord, book: Book, now: int)
    requires RecordOk(x, book) && AllChainsOk(book, now) && x.group in book.chains && Expired(book.chains[x.group], now)
    ensures TooOld(x, now)
  {
    hide HoldsId, SitsIn, ChainOk;
  }

  /** What stands behind a record without a time stays. */
  lemma HeldBackStays(ring: seq<RingRecord>, book: Book, now: int)
    requires HeldBack(ring, book, now)
    ensures !RingFresh(PruneRing(ring, now), book, now)
  {
    hide Expired, PruneRing;
    var n := PrunedIsSuffix(ring, now);
    var i, j :| 0 <= i < j < |ring| && ring[i].record.time == 0
                && ring[j].group in book.chains && Expired(book.chains[ring[j].group], now);
    assert n <= i;
    assert ring[n..][j - n] == ring[j];
  }

  /** A record that is too old but stayed has a record without a time before it. */
  lemma StaleIsHeldBack(ring: seq<RingRecord>, n: nat, k: nat, now: int)
    requires TimeOrdered(ring) && n <= k < |ring| && !TooOld(ring[n], now) && TooOld(ring[k], now)
    ensures n < k && ring[n].record.time == 0
  {
  }

  /** A ring whose old records are not held back keeps no record of an expiring group, and only then. */
  lemma FreshIffNotHeldBack(ring: seq<RingRecord>, e: string, book: Book, now: int, nextRecord: nat)
    requires RingOk(ring, e, book, now, nextRecord) && AllChainsOk(book, now)
    ensures RingFresh(PruneRing(ring, now), book, now) <==> !HeldBack(ring, book, now)
  {
    hide RecordOk, Filed, AllChainsOk, Expired, PruneRing, TooOld, TimeOrdered;
    var n := PrunedIsSuffix(ring, now);
    var kept := ring[n..];
    if HeldBack(ring, book, now) {
      HeldBackStays(ring, book, now);
    } else if !RingFresh(kept, book, now) {
      var x :| x in kept && x.group in book.chains && Expired(book.chains[x.group], now);
      var k :| 0 <= k < |kept| && kept[k] == x;
      assert ring[n + k] == x && x in ring;
      ExpiringIsOld(x, book, now);
      StaleIsHeldBack(ring, n, n + k, now);
    }
  }

  /** What a caller can check before a cycle. */
  predicate NothingHeldBack(s: State, now: int) {
    forall e <- s.rings :: !HeldBack(s.rings[e], s.book, now)
  }

  lemma RingFreshAll(s: State, now: int)
    ensures LinksAreFresh(s, now) <==> forall e <- s.rings :: RingFresh(s.rings[e], s.book, now)
  {
    hide Expired;
  }

  lemma PruneAll(s: State, endpoints: seq<string>, now: int)
    requires Enumerates(endpoints, s.rings.Keys)
    ensures var s' := PruneFrom(s, endpoints, 0, now);
            s'.book == s.book && s'.rings.Keys == s.rings.Keys
              && forall e <- s.rings :: s'.rings[e] == PruneRing(s.rings[e], now)
  {
    hide PruneRing, PruneFrom;
    forall i | 0 <= i < |endpoints| ensures endpoints[i] in s.rings { assert endpoints[i] in endpoints; }
    PrunedRings(s, endpoints, 0, now);
    forall e <- s.rings ensures PruneFrom(s, endpoints, 0, now).rings[e] == PruneRing(s.rings[e], now) {
      assert e in endpoints;
      var i :| 0 <= i < |endpoints| && endpoints[i] == e;
    }
  }

  /** The exact condition: after `PruneStale` no record refers to a group that `PruneStaleGroups` is about to close
      if and only if no record without a time holds one back. */
  lemma AgeingIsSafeExactly(s: State, log: seq<Revision>, endpoints: seq<string>, now: int)
    requires EngineOk(s, log, now) && Enumerates(endpoints, s.rings.Keys)
    ensures LinksAreFresh(PruneFrom(s, endpoints, 0, now), now) <==> NothingHeldBack(s, now)
  {
    hide RingOk, RingFresh, HeldBack, PruneRing, LinksAreFresh, KnownIds, AllApart, LogOk, Enumerates, PruneFrom;
    var s' := PruneFrom(s, endpoints, 0, now);
    PruneAll(s, endpoints, now);
    RingFreshAll(s', now);
    BookParts(s.book, now);
    forall e <- s.rings ensures RingFresh(s'.rings[e], s'.book, now) <==> !HeldBack(s.rings[e], s.book, now) {
      FreshIffNotHeldBack(s.rings[e], e, s.book, now, s.nextRecord);
    }
  }

  /** In particular: an engine all of whose records carry a time. */
  lemma TimesAreEnough(s: State, now: int)
    requires forall e <- s.rings, x <- s.rings[e] :: x.record.time != 0
    ensures NothingHeldBack(s, now)
  {
    hide Expired;
    forall e <- s.rings ensures !HeldBack(s.rings[e], s.book, now) {
      forall i | 0 <= i < |s.rings[e]| ensures s.rings[e][i].record.time != 0 { assert s.rings[e][i] in s.rings[e]; }
    }
  }

  // ---------------------------------------------------------------- a cycle

  lemma EnumeratedKeys(endpoints: seq<string>, keys: set<string>)
    requires Enumerates(endpoints, keys)
    ensures forall i :: 0 <= i < |endpoints| ==> endpoints[i] in keys
  {
    forall i | 0 <= i < |endpoints| ensures endpoints[i] in keys { assert endpoints[i] in endpoints; }
  }

  lemma AgedKeeps(s: State, log: seq<Revision>, endpoints: seq<string>, order: seq<nat>, now: int)
    requires EngineOk(s, log, now) && Enumerates(endpoints, s.rings.Keys) && NothingHeldBack(s, now)
    ensures var aged := Aged(s, endpoints, order, now);
            EngineOk(aged.0, log + aged.1, now) && aged.0.rings.Keys == s.rings.Keys
  {
    hide EngineOk, NothingHeldBack, LinksAreFresh, PruneFrom, ExpireFrom, Enumerates;
    EnumeratedKeys(endpoints, s.rings.Keys);
    AgeingIsSafeExactly(s, log, endpoints, now);
    PruneKeeps(s, log, endpoints, 0, now);
    PruneAll(s, endpoints, now);
    assert log + [] == log;
    ExpireKeeps(PruneFrom(s, endpoints, 0, now), log, [], order, 0, now);
    ExpireKeepsRings(PruneFrom(s, endpoints, 0, now), [], order, 0, now);
  }

  /** One cycle keeps the engine and its log sound, and publishes at most 100 growing lines. */
  lemma CycleKeeps(s: State, log: seq<Revision>, endpoints: seq<string>, order: seq<nat>, now: int)
    requires EngineOk(s, log, now) && Enumerates(endpoints, s.rings.Keys) && NothingHeldBack(s, now)
    ensures var c := Cycle(TwoPointer, s, endpoints, order, now);
            EngineOk(c.s, log + c.out, now) && c.joins <= MAX_JOINS_PER_CYCLE
  {
    hide EngineOk, NothingHeldBack, Aged, ScanFrom, Enumerates;
    AgedKeeps(s, log, endpoints, order, now);
    var aged := Aged(s, endpoints, order, now);
    PairsKeep(Progress(aged.0, 0, aged.1), endpoints, 0, 1, log, now);
  }

  // ---------------------------------------------------------------- runs

  datatype Event =
    | Feed(now: int, endpoint: string, line: string)
    | Correlate(now: int, endpoints: seq<string>, order: seq<nat>)

  datatype World = World(s: State, log: seq<Revision>, clock: int)

  /** The clock never goes back, lines are timely, and a cycle iterates its maps with no record held back. */
  ghost predicate Admissible(w: World, event: Event) {
    match event
    case Feed(now, endpoint, line) => w.clock <= now && (IsBehavioural(line) ==> Timely(w.s, endpoint, line, now))
    case Correlate(now, endpoints, order) =>
      && w.clock <= now && NothingHeldBack(w.s, now)
      && Enumerates(endpoints, w.s.rings.Keys) && Enumerates(order, w.s.book.chains.Keys)
  }

  function Next(w: World, event: Event): World {
    match event
    case Feed(now, endpoint, line) => World(Ingest(w.s, endpoint, line), w.log, now)
    case Correlate(now, endpoints, order) =>
      var c := Cycle(TwoPointer, w.s, endpoints, order, now);
      World(c.s, w.log + c.out, now)
  }

  ghost predicate WorldOk(w: World) { EngineOk(w.s, w.log, w.clock) }

  lemma EventKeeps(w: World, event: Event)
    requires WorldOk(w) && Admissible(w, event)
    ensures WorldOk(Next(w, event))
  {
    hide EngineOk, Cycle, Ingest, Timely, NothingHeldBack, Enumerates, IsBehavioural;
    match event
    case Feed(now, endpoint, line) =>
      Later(w.s, w.log, w.clock, now);
      IngestKeeps(w.s, w.log, endpoint, line, now);
    case Correlate(now, endpoints, order) =>
      Later(w.s, w.log, w.clock, now);
      CycleKeeps(w.s, w.log, endpoints, order, now);
  }

  /** `events` lead from the fresh engine to `w`. */
  ghost predicate Reaches(events: seq<Event>, w: World)
    decreases |events|
  {
    if events == [] then w.s == EMPTY_ENGINE && w.log == []
    else
      var front, last := events[..|events| - 1], events[|events| - 1];
      exists before :: Reaches(front, before) && Admissible(before, last) && w == Next(before, last)
  }

  lemma {:induction false} EveryRunIsSound(events: seq<Event>, w: World)
    requires Reaches(events, w)
    ensures WorldOk(w)
    decreases |events|
  {
    hide Admissible, Next, EngineOk;
    if events == [] {
      EmptyEngineOk(w.clock);
    } else {
      var front, last := events[..|events| - 1], events[|events| - 1];
      var before :| Reaches(front, before) && Admissible(before, last) && w == Next(before, last);
      EveryRunIsSound(front, before);
      EventKeeps(before, last);
    }
  }

  /** Over every run: after a group's final line nothing of that group is published, and its id names no live group. */
  lemma FinalIsFinal(events: seq<Event>, w: World, i: nat)
    requires Reaches(events, w) && i < |w.log| && w.log[i].final
    ensures w.log[i].group !in w.s.book.chains
    ensures forall j :: i < j < |w.log| ==> w.log[j].group != w.log[i].group
    ensures forall e <- w.s.rings, x <- w.s.rings[e] :: x.group != w.log[i].group
  {
    hide Reaches, RingOk, Filed, TimeOrdered, BookOk, KnownIds, AllShown, LineOk, AllApart;
    EveryRunIsSound(events, w);
    assert w.log[i] in w.log;
    forall j | i < j < |w.log| ensures w.log[j].group != w.log[i].group {
      FinalIsLast(w.log, w.s.book, i, j);
    }
    forall e <- w.s.rings, x <- w.s.rings[e] ensures x.group != w.log[i].group {
      LiveOrNone(w, e, x);
      assert LineOk(w.log[i], w.s.book.nextGroup);
      NumberedFromOne(w.log[i], w.s.book.nextGroup);
    }
  }

  lemma NumberedFromOne(x: Revision, nextGroup: nat)
    requires LineOk(x, nextGroup)
    ensures x.group >= 1
  {
    hide Justified;
  }

  lemma LiveOrNone(w: World, e: string, x: RingRecord)
    requires WorldOk(w) && e in w.s.rings && x in w.s.rings[e]
    ensures x.group == 0 || x.group in w.s.book.chains
    ensures |x.partners| <= MAX_JOINS_PER_RECORD
  {
    hide BookOk, KnownIds, LogOk, AllApart, Filed, TimeOrdered, HoldsId, SitsIn;
    assert RingOk(w.s.rings[e], e, w.s.book, w.clock, w.s.nextRecord);
  }

  /** Over every run: the bounds hold, and every group is a chain of 2 to 8 records, each after the first one justified
      by an earlier member of another endpoint, under the revision number |members| - 1, last shown as it is. */
  lemma EveryGroupIsSound(events: seq<Event>, w: World, g: nat)
    requires Reaches(events, w)
    ensures |w.s.book.chains| <= MAX_ACTIVE_GROUPS
    ensures forall e <- w.s.rings :: |w.s.rings[e]| <= MAX_PER_ENDPOINT
    ensures forall e <- w.s.rings, x <- w.s.rings[e] :: |x.partners| <= MAX_JOINS_PER_RECORD
    ensures g in w.s.book.chains ==>
              var c := w.s.book.chains[g];
              && 2 <= |c.members| <= MAX_GROUP_SIZE && c.revision == |c.members| - 1 && Justified(c.members)
              && DistinctIds(c.members) && Shown(w.log, g, c.members, false) && !Closed(w.log, g)
  {
    hide Reaches, Filed, TimeOrdered, KnownIds, AllApart, AllOk, Justified, DistinctIds, HoldsId, InOrder, LineOk,
         Shown;
    EveryRunIsSound(events, w);
    forall e <- w.s.rings, x <- w.s.rings[e] ensures |x.partners| <= MAX_JOINS_PER_RECORD { LiveOrNone(w, e, x); }
    forall i | 0 <= i < |w.log| ensures Current(w.log[i], w.s.book) { assert w.log[i] in w.log; }
  }

  /** Over every run: every group ever opened is live or has been closed by exactly one final line. */
  lemma ExactlyOneFinalLine(events: seq<Event>, w: World, g: nat)
    requires Reaches(events, w) && 1 <= g < w.s.book.nextGroup
    ensures g in w.s.book.chains <==> !Closed(w.log, g)
    ensures forall i, j :: 0 <= i < j < |w.log| && w.log[i].group == g && w.log[j].group == g ==> !w.log[i].final
  {
    hide Reaches, RingsOk, BookOk, KnownIds, AllApart, LineOk, Shown;
    EveryRunIsSound(events, w);
    forall i, j | 0 <= i < j < |w.log| && w.log[i].group == g && w.log[j].group == g ensures !w.log[i].final {
      assert Follows(w.log[i], w.log[j]);
    }
    forall i | 0 <= i < |w.log| ensures Current(w.log[i], w.s.book) { assert w.log[i] in w.log; }
  }
}
