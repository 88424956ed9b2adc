/** The engine's invariant, and that ingesting a line, ageing and scanning keep it. */
module CorrelationInvariant {
  import opened Evidence
  import opened CorrelationSpec
  import opened CorrelationScan
  import opened CorrelationGroups
  import opened CorrelationLog
  import opened CorrelationRings

  ghost predicate RingOk(ring: seq<RingRecord>, e: string, book: Book, now: int, nextRecord: nat) {
    Filed(ring, e, now, nextRecord) && TimeOrdered(ring) && AllOk(ring, book) && |ring| <= MAX_PER_ENDPOINT
  }

  ghost predicate RingsOk(s: State, now: int) {
    forall e <- s.rings :: RingOk(s.rings[e], e, s.book, now, s.nextRecord)
  }

  predicate AllApart(rings: map<string, seq<RingRecord>>) {
    forall e <- rings, f <- rings :: e != f ==> Apart(rings[e], rings[f])
  }

  /** `log` is everything published so far, `now` the clock. */
  ghost predicate EngineOk(s: State, log: seq<Revision>, now: int) {
    && RingsOk(s, now) && AllApart(s.rings)
    && BookOk(s.book, now) && KnownIds(s.book, s.nextRecord) && LogOk(log, s.book)
  }

  lemma EmptyEngineOk(now: int)
    ensures EngineOk(EMPTY_ENGINE, [], now)
  {
  }

  // ---------------------------------------------------------------- the clock moves

  lemma LaterBook(book: Book, now: int, later: int)
    requires BookOk(book, now) && now <= later
    ensures BookOk(book, later)
  {
    hide OneGroupEach, Justified;
  }

  lemma LaterRing(ring: seq<RingRecord>, e: string, book: Book, now: int, nextRecord: nat, later: int, next: nat)
    requires RingOk(ring, e, book, now, nextRecord) && now <= later && nextRecord <= next
    ensures RingOk(ring, e, book, later, next)
  {
    hide RecordOk;
  }

  lemma Later(s: State, log: seq<Revision>, now: int, later: int)
    requires EngineOk(s, log, now) && now <= later
    ensures EngineOk(s, log, later)
  {
    hide RingOk, BookOk, LogOk, KnownIds;
    LaterBook(s.book, now, later);
    forall e <- s.rings ensures RingOk(s.rings[e], e, s.book, later, s.nextRecord) {
      LaterRing(s.rings[e], e, s.book, now, s.nextRecord, later, s.nextRecord);
    }
  }

  // ---------------------------------------------------------------- a new line

  /** The line's time, if it has one, is not ahead of the clock and not before the times already in the ring. */
  predicate Timely(s: State, endpoint: string, line: string, now: int) {
    var time := StoredRecord(endpoint, line).time;
    time <= now && (time != 0 ==> forall x <- RingOf(s, endpoint) :: x.record.time != 0 ==> x.record.time <= time)
  }

  lemma NewRecordOk(book: Book, id: nat, record: Record)
    requires KnownIds(book, id)
    ensures RecordOk(RingRecord(id, record, 0, []), book)
  {
    hide HoldsId;
  }

  lemma AppendedRing(ring: seq<RingRecord>, e: string, book: Book, now: int, x: RingRecord)
    requires RingOk(ring, e, book, now, x.id) && RecordOk(x, book)
    requires x.record.endpoint == e && x.record.time <= now
    requires x.record.time != 0 ==> forall y <- ring :: y.record.time != 0 ==> y.record.time <= x.record.time
    ensures var ring' := ring + [x];
            RingOk(if |ring'| > MAX_PER_ENDPOINT then ring'[1..] else ring', e, book, now, x.id + 1)
  {
    hide RecordOk;
    var ring' := ring + [x];
    AppendedOrdered(ring, x);
    AppendedFiled(ring, e, now, x);
    if |ring'| > MAX_PER_ENDPOINT { TailOk(ring', e, book, now, x.id + 1); }
  }

  lemma AppendedOrdered(ring: seq<RingRecord>, x: RingRecord)
    requires TimeOrdered(ring)
    requires x.record.time != 0 ==> forall y <- ring :: y.record.time != 0 ==> y.record.time <= x.record.time
    ensures TimeOrdered(ring + [x])
  {
    forall i | 0 <= i < |ring| ensures ring[i] in ring {}
  }

  lemma AppendedFiled(ring: seq<RingRecord>, e: string, now: int, x: RingRecord)
    requires Filed(ring, e, now, x.id) && x.record.endpoint == e && x.record.time <= now
    ensures Filed(ring + [x], e, now, x.id + 1)
  {
    forall i | 0 <= i < |ring| ensures ring[i].id < x.id { assert ring[i] in ring; }
  }

  lemma TailOk(ring: seq<RingRecord>, e: string, book: Book, now: int, nextRecord: nat)
    requires Filed(ring, e, now, nextRecord) && TimeOrdered(ring) && AllOk(ring, book)
             && 1 <= |ring| <= MAX_PER_ENDPOINT + 1
    ensures RingOk(ring[1..], e, book, now, nextRecord)
  {
    hide RecordOk;
  }

  lemma EmptyRingOk(e: string, book: Book, now: int, nextRecord: nat)
    ensures RingOk([], e, book, now, nextRecord)
  {
  }

  lemma RingOfOk(s: State, now: int, e: string)
    requires RingsOk(s, now)
    ensures RingOk(RingOf(s, e), e, s.book, now, s.nextRecord)
  {
    hide RingOk;
    EmptyRingOk(e, s.book, now, s.nextRecord);
  }

  /** The new ring is apart from every other one: its last id is new. */
  lemma AppendedApart(rings: map<string, seq<RingRecord>>, e: string, ring: seq<RingRecord>, x: RingRecord,
                      cut: seq<RingRecord>)
    requires AllApart(rings) && (if e in rings then ring == rings[e] else ring == [])
    requires forall y <- cut :: y in ring || y == x
    requires forall f <- rings, y <- rings[f] :: y.id < x.id
    ensures AllApart(rings[e := cut])
  {
    var rings' := rings[e := cut];
    forall f <- rings', g <- rings' | f != g ensures Apart(rings'[f], rings'[g]) {
      if f == e {
        assert e in rings ==> Apart(rings[e], rings[g]);
      } else if g == e {
        assert e in rings ==> Apart(rings[f], rings[e]);
      }
    }
  }

  lemma IdsBelow(s: State, now: int)
    requires RingsOk(s, now)
    ensures forall f <- s.rings, y <- s.rings[f] :: y.id < s.nextRecord
  {
    hide RecordOk, TimeOrdered;
    forall f <- s.rings, y <- s.rings[f] ensures y.id < s.nextRecord {
      assert RingOk(s.rings[f], f, s.book, now, s.nextRecord);
    }
  }

  lemma StoredAt(endpoint: string, line: string)
    ensures StoredRecord(endpoint, line).endpoint == endpoint
  {
  }

  lemma KnownIdsMono(book: Book, nextRecord: nat, next: nat)
    requires KnownIds(book, nextRecord) && nextRecord <= next
    ensures KnownIds(book, next)
  {
    hide HoldsId;
  }

  lemma IngestKeeps(s: State, log: seq<Revision>, endpoint: string, line: string, now: int)
    requires EngineOk(s, log, now) && (IsBehavioural(line) ==> Timely(s, endpoint, line, now))
    ensures EngineOk(Ingest(s, endpoint, line), log, now)
  {
    hide RingOk, BookOk, LogOk, KnownIds, RecordOk, StoredRecord, AllApart, IsBehavioural;
    if IsBehavioural(line) {
      StoredAt(endpoint, line);
      RingOfOk(s, now, endpoint);
      var x := RingRecord(s.nextRecord, StoredRecord(endpoint, line), 0, []);
      var s' := Ingest(s, endpoint, line);
      NewRecordOk(s.book, s.nextRecord, x.record);
      AppendedRing(RingOf(s, endpoint), endpoint, s.book, now, x);
      IdsBelow(s, now);
      AppendedApart(s.rings, endpoint, RingOf(s, endpoint), x, s'.rings[endpoint]);
      KnownIdsMono(s.book, s.nextRecord, s.nextRecord + 1);
      forall f <- s'.rings ensures RingOk(s'.rings[f], f, s.book, now, s.nextRecord + 1) {
        if f != endpoint { LaterRing(s.rings[f], f, s.book, now, s.nextRecord, now, s.nextRecord + 1); }
      }
    }
  }

  // ---------------------------------------------------------------- pruning the rings

  lemma SuffixOk(ring: seq<RingRecord>, n: nat, e: string, book: Book, now: int, nextRecord: nat)
    requires RingOk(ring, e, book, now, nextRecord) && n <= |ring|
    ensures RingOk(ring[n..], e, book, now, nextRecord)
  {
    hide RecordOk;
  }

  lemma SuffixApart(rings: map<string, seq<RingRecord>>, e: string, n: nat)
    requires AllApart(rings) && e in rings && n <= |rings[e]|
    ensures AllApart(rings[e := rings[e][n..]])
  {
    var rings' := rings[e := rings[e][n..]];
    forall f <- rings', g <- rings' | f != g ensures Apart(rings'[f], rings'[g]) {
      assert Apart(rings[f], rings[g]);
    }
  }

  /** After pruning, every enumerated ring is the pruned one; the rest of the engine is as before. */
  lemma {:induction false} PrunedRings(s: State, endpoints: seq<string>, k: nat, now: int)
    requires forall i, j :: 0 <= i < j < |endpoints| ==> endpoints[i] != endpoints[j]
    requires forall i :: 0 <= i < |endpoints| ==> endpoints[i] in s.rings
    ensures var s' := PruneFrom(s, endpoints, k, now);
            && s'.rings.Keys == s.rings.Keys && s'.book == s.book && s'.nextRecord == s.nextRecord
            && (forall i :: k <= i < |endpoints| ==> s'.rings[endpoints[i]] == PruneRing(s.rings[endpoints[i]], now))
            && (forall e <- s.rings :: (forall i :: k <= i < |endpoints| ==> endpoints[i] != e) ==>
                s'.rings[e] == s.rings[e])
    decreases |endpoints| - k
  {
    hide PruneRing;
    if k < |endpoints| {
      var e := endpoints[k];
      var ring := RingOf(s, e);
      var kept := PruneRing(ring, now);
      PrunedRings(s.(rings := s.rings[e := kept],
                     evictedByAge := if |kept| <= |ring| then s.evictedByAge + (|ring| - |kept|) else s.evictedByAge),
                  endpoints, k + 1, now);
    }
  }

  lemma {:induction false} PruneKeeps(s: State, log: seq<Revision>, endpoints: seq<string>, k: nat, now: int)
    requires EngineOk(s, log, now)
    requires forall i :: 0 <= i < |endpoints| ==> endpoints[i] in s.rings
    ensures EngineOk(PruneFrom(s, endpoints, k, now), log, now)
    decreases |endpoints| - k
  {
    hide RingOk, BookOk, LogOk, KnownIds, AllApart, PruneRing;
    if k < |endpoints| {
      var e := endpoints[k];
      var ring := RingOf(s, e);
      var kept := PruneRing(ring, now);
      var n := PrunedIsSuffix(ring, now);
      SuffixOk(ring, n, e, s.book, now, s.nextRecord);
      SuffixApart(s.rings, e, n);
      PruneKeeps(s.(rings := s.rings[e := kept],
                    evictedByAge := if |kept| <= |ring| then s.evictedByAge + (|ring| - |kept|) else s.evictedByAge),
                 log, endpoints, k + 1, now);
    }
  }

  // ---------------------------------------------------------------- closing groups

  /** No record still in a ring belongs to a group that is due to close. */
  ghost predicate LinksAreFresh(s: State, now: int) {
    forall e <- s.rings, x <- s.rings[e] :: x.group in s.book.chains ==> !Expired(s.book.chains[x.group], now)
  }

  lemma RemovedBook(book: Book, g: nat, now: int, nextRecord: nat)
    requires BookOk(book, now) && KnownIds(book, nextRecord) && g in book.chains
    ensures BookOk(book.(chains := book.chains - {g}), now) && KnownIds(book.(chains := book.chains - {g}), nextRecord)
  {
    hide HoldsId, ChainOk, DistinctIds;
    var chains := book.chains - {g};
    assert chains.Keys == book.chains.Keys - {g};
    assert |chains| == |chains.Keys| && |book.chains| == |book.chains.Keys|;
  }

  lemma RemovedPlace(book: Book, g: nat, x: RingRecord)
    requires RecordOk(x, book) && x.group != g
    ensures RecordOk(x, book.(chains := book.chains - {g}))
  {
    hide HoldsId, SitsIn;
  }

  lemma RemovedRings(s: State, g: nat, now: int)
    requires RingsOk(s, now) && LinksAreFresh(s, now) && g in s.book.chains && Expired(s.book.chains[g], now)
    ensures RingsOk(s.(book := s.book.(chains := s.book.chains - {g}), expired := s.expired + 1), now)
  {
    hide RecordOk, Filed, TimeOrdered;
    forall e <- s.rings ensures RingOk(s.rings[e], e, s.book.(chains := s.book.chains - {g}), now, s.nextRecord) {
      forall x <- s.rings[e] ensures RecordOk(x, s.book.(chains := s.book.chains - {g})) {
        RemovedPlace(s.book, g, x);
      }
    }
  }

  lemma CloseOne(s: State, log: seq<Revision>, g: nat, now: int)
    requires EngineOk(s, log, now) && LinksAreFresh(s, now) && g in s.book.chains && Expired(s.book.chains[g], now)
    ensures var s' := s.(book := s.book.(chains := s.book.chains - {g}), expired := s.expired + 1);
            EngineOk(s', log + [Closing(g, s.book.chains[g])], now) && LinksAreFresh(s', now)
  {
    hide RingsOk, BookOk, LogOk, KnownIds, AllApart, Expired;
    RemovedRings(s, g, now);
    RemovedBook(s.book, g, now, s.nextRecord);
    BookParts(s.book, now);
    CloseKeeps(log, s.book, g, now);
  }

  lemma {:induction false} ExpireKeeps(s: State, log: seq<Revision>, out: seq<Revision>, order: seq<nat>, k: nat,
                                       now: int)
    requires EngineOk(s, log + out, now) && LinksAreFresh(s, now)
    ensures var r := ExpireFrom(s, out, order, k, now);
            EngineOk(r.0, log + r.1, now) && LinksAreFresh(r.0, now)
    decreases |order| - k
  {
    hide EngineOk, LinksAreFresh, Expired;
    if k < |order| {
      if order[k] in s.book.chains && Expired(s.book.chains[order[k]], now) {
        var line := Closing(order[k], s.book.chains[order[k]]);
        CloseOne(s, log + out, order[k], now);
        assert log + out + [line] == log + (out + [line]);
        ExpireKeeps(s.(book := s.book.(chains := s.book.chains - {order[k]}), expired := s.expired + 1),
                    log, out + [line], order, k + 1, now);
      } else {
        ExpireKeeps(s, log, out, order, k + 1, now);
      }
    }
  }

  // ---------------------------------------------------------------- scanning all pairs

  function OthersOf(s: State, e: string, f: string): set<RingRecord> {
    set g <- s.rings, x <- s.rings[g] | g != e && g != f :: x
  }

  lemma ScanStarts(c: Progress, e: string, f: string, log: seq<Revision>, now: int)
    requires EngineOk(c.s, log + c.out, now) && c.joins <= MAX_JOINS_PER_CYCLE && e in c.s.rings && f in c.s.rings
             && e != f
    ensures ScanKept(ScanOf(c, e, f), Frame(e, f, now, c.s.nextRecord, OthersOf(c.s, e, f), log))
  {
    hide BookOk, LogOk, KnownIds, Filed, RecordOk, TimeOrdered;
    RingOfOk(c.s, now, e);
    RingOfOk(c.s, now, f);
    OthersStart(c.s, e, f, now, ScanOf(c, e, f));
  }

  lemma OthersStart(s: State, e: string, f: string, now: int, p: Scan)
    requires RingsOk(s, now) && AllApart(s.rings) && e in s.rings && f in s.rings
    requires p.a == s.rings[e] && p.b == s.rings[f] && p.book == s.book
    ensures OthersOk(OthersOf(s, e, f), p)
  {
    hide Filed, RecordOk, TimeOrdered;
    forall x <- OthersOf(s, e, f)
      ensures RecordOk(x, p.book) && (forall y <- p.a :: x.id != y.id) && (forall y <- p.b :: x.id != y.id)
    {
      var g :| g in s.rings && x in s.rings[g] && g != e && g != f;
      assert RingOk(s.rings[g], g, s.book, now, s.nextRecord);
      assert Apart(s.rings[g], s.rings[e]) && Apart(s.rings[g], s.rings[f]);
    }
  }

  lemma SameEvidenceRing(ring: seq<RingRecord>, ring': seq<RingRecord>, e: string, book: Book, book': Book, now: int,
                         nextRecord: nat)
    requires RingOk(ring, e, book, now, nextRecord) && SameEvidence(ring, ring') && AllOk(ring', book')
    ensures RingOk(ring', e, book', now, nextRecord)
  {
    hide RecordOk, TimeOrdered, Filed, SameEvidence;
    SameEvidenceFiled(ring, ring', e, now, nextRecord);
    SameEvidenceOrdered(ring, ring');
    SameLength(ring, ring');
  }

  lemma SameLength(ring: seq<RingRecord>, ring': seq<RingRecord>)
    requires SameEvidence(ring, ring')
    ensures |ring| == |ring'|
  {
  }

  lemma OtherRingOk(s: State, p: Scan, e: string, f: string, g: string, now: int)
    requires RingsOk(s, now) && g in s.rings && g != e && g != f && OthersOk(OthersOf(s, e, f), p)
    ensures RingOk(s.rings[g], g, p.book, now, s.nextRecord)
  {
    hide RecordOk, TimeOrdered, Filed;
    assert RingOk(s.rings[g], g, s.book, now, s.nextRecord);
    forall x <- s.rings[g] ensures RecordOk(x, p.book) {
      assert x in OthersOf(s, e, f);
    }
  }

  lemma SameEvidenceAllApart(rings: map<string, seq<RingRecord>>, rings': map<string, seq<RingRecord>>)
    requires AllApart(rings) && rings'.Keys == rings.Keys && forall e <- rings :: SameEvidence(rings[e], rings'[e])
    ensures AllApart(rings')
  {
    hide SameEvidence;
    forall e <- rings', f <- rings' | e != f ensures Apart(rings'[e], rings'[f]) {
      assert Apart(rings[e], rings[f]);
      BothApart(rings[e], rings[f], rings'[e], rings'[f]);
    }
  }

  lemma BothApart(a: seq<RingRecord>, b: seq<RingRecord>, a': seq<RingRecord>, b': seq<RingRecord>)
    requires SameEvidence(a, a') && SameEvidence(b, b') && Apart(a, b)
    ensures Apart(a', b')
  {
    var book := Book(map[], 1, Declines(0, 0, 0));
    SameEvidenceApart(Scan(a, b, book, 0, []), Scan(a', b', book, 0, []));
  }

  lemma PairKeeps(c: Progress, e: string, f: string, log: seq<Revision>, now: int)
    requires EngineOk(c.s, log + c.out, now) && c.joins <= MAX_JOINS_PER_CYCLE && e in c.s.rings && f in c.s.rings
             && e != f
    ensures var c' := ScanPair(TwoPointer, c, e, f, now);
            && EngineOk(c'.s, log + c'.out, now) && c'.joins <= MAX_JOINS_PER_CYCLE
            && c'.s.rings.Keys == c.s.rings.Keys
  {
    hide BookOk, LogOk, KnownIds, RingsOk, AllOk, AllApart, OthersOk, SameEvidence, TwoPointerScan, OthersOf;
    var p := ScanOf(c, e, f);
    var frame := Frame(e, f, now, c.s.nextRecord, OthersOf(c.s, e, f), log);
    ScanStarts(c, e, f, log, now);
    ScanKeeps(p, frame, 0, 0, Prefilter(e, f));
    var p' := TwoPointerScan(p, 0, 0, Prefilter(e, f), now);
    AbsorbedRings(c, e, f, p', now);
    AbsorbedApart(c, e, f, p');
  }

  lemma AbsorbedRings(c: Progress, e: string, f: string, p': Scan, now: int)
    requires RingsOk(c.s, now) && e in c.s.rings && f in c.s.rings && e != f
    requires SameEvidence(c.s.rings[e], p'.a) && SameEvidence(c.s.rings[f], p'.b)
    requires AllOk(p'.a, p'.book) && AllOk(p'.b, p'.book) && OthersOk(OthersOf(c.s, e, f), p')
    ensures RingsOk(Absorb(c, e, f, p').s, now)
  {
    hide RingOk, AllOk, OthersOk, SameEvidence, OthersOf;
    var s' := Absorb(c, e, f, p').s;
    forall g <- s'.rings ensures RingOk(s'.rings[g], g, p'.book, now, s'.nextRecord) {
      if g == e {
        SameEvidenceRing(c.s.rings[e], p'.a, e, c.s.book, p'.book, now, c.s.nextRecord);
      } else if g == f {
        SameEvidenceRing(c.s.rings[f], p'.b, f, c.s.book, p'.book, now, c.s.nextRecord);
      } else {
        OtherRingOk(c.s, p', e, f, g, now);
      }
    }
  }

  lemma AbsorbedApart(c: Progress, e: string, f: string, p': Scan)
    requires AllApart(c.s.rings) && e in c.s.rings && f in c.s.rings && e != f
    requires SameEvidence(c.s.rings[e], p'.a) && SameEvidence(c.s.rings[f], p'.b)
    ensures AllApart(Absorb(c, e, f, p').s.rings) && Absorb(c, e, f, p').s.rings.Keys == c.s.rings.Keys
  {
    hide AllApart;
    SameEvidenceAllApart(c.s.rings, Absorb(c, e, f, p').s.rings);
  }

  lemma {:induction false} PairsKeep(c: Progress, endpoints: seq<string>, i: nat, j: nat, log: seq<Revision>, now: int)
    requires EngineOk(c.s, log + c.out, now) && c.joins <= MAX_JOINS_PER_CYCLE && i < j
    requires Enumerates(endpoints, c.s.rings.Keys)
    ensures var c' := ScanFrom(TwoPointer, c, endpoints, i, j, now);
            EngineOk(c'.s, log + c'.out, now) && c'.joins <= MAX_JOINS_PER_CYCLE && c'.s.rings.Keys == c.s.rings.Keys
    decreases |endpoints| - i, |endpoints| - j
  {
    hide ScanPair, EngineOk;
    if i >= |endpoints| || c.joins >= MAX_JOINS_PER_CYCLE {
    } else if j >= |endpoints| {
      PairsKeep(c, endpoints, i + 1, i + 2, log, now);
    } else {
      assert endpoints[i] in endpoints && endpoints[j] in endpoints;
      PairKeeps(c, endpoints[i], endpoints[j], log, now);
      PairsKeep(ScanPair(TwoPointer, c, endpoints[i], endpoints[j], now), endpoints, i, j + 1, log, now);
    }
  }
}
