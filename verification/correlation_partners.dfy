/** No two records are ever joined twice: partnership is mutual, and no record lists a partner twice, over every run. */
module CorrelationPartners {
  import opened CorrelationSpec
  import opened CorrelationScan
  import opened CorrelationRings
  import opened CorrelationInvariant
  import opened CorrelationRuns
  import opened CorrelationOrder

  // ---------------------------------------------------------------- one record, two records

  /** Partners are distinct and were given out before `nextRecord`. */
  predicate OnceEach(x: RingRecord, nextRecord: nat) {
    && (forall i, j :: 0 <= i < j < |x.partners| ==> x.partners[i] != x.partners[j])
    && forall id <- x.partners :: id < nextRecord
  }

  predicate Mutual(x: RingRecord, y: RingRecord) { y.id in x.partners <==> x.id in y.partners }

  /** Ids grow along a ring and were given out before `nextRecord`. */
  predicate Numbered(ring: seq<RingRecord>, nextRecord: nat) {
    && (forall i, j :: 0 <= i < j < |ring| ==> ring[i].id < ring[j].id)
    && forall x <- ring :: x.id < nextRecord
  }

  predicate RingOnce(ring: seq<RingRecord>, nextRecord: nat) { forall x <- ring :: OnceEach(x, nextRecord) }

  predicate RingsMutual(p: seq<RingRecord>, q: seq<RingRecord>) { forall x <- p, y <- q :: Mutual(x, y) }

  /** `others` are the records of the rings that the scan does not touch. */
  predicate Separate(p: Scan, others: set<RingRecord>, nextRecord: nat) {
    && Numbered(p.a, nextRecord) && Numbered(p.b, nextRecord) && Apart(p.a, p.b)
    && forall z <- others :: (forall x <- p.a :: x.id != z.id) && (forall y <- p.b :: y.id != z.id)
  }

  predicate ScanPaired(p: Scan, others: set<RingRecord>, nextRecord: nat) {
    && RingOnce(p.a, nextRecord) && RingOnce(p.b, nextRecord) && RingsMutual(p.a, p.b)
    && forall z <- others :: (forall x <- p.a :: Mutual(x, z)) && (forall y <- p.b :: Mutual(y, z))
  }

  // ---------------------------------------------------------------- the same evidence stays separate

  lemma NumberedKin(ring: seq<RingRecord>, ring': seq<RingRecord>, nextRecord: nat)
    requires Numbered(ring, nextRecord) && SameEvidence(ring, ring')
    ensures Numbered(ring', nextRecord)
  {
    forall x <- ring' ensures x.id < nextRecord {
      var i :| 0 <= i < |ring'| && ring'[i] == x;
      assert ring[i] in ring;
    }
  }

  lemma SeparateKin(p: Scan, p': Scan, others: set<RingRecord>, nextRecord: nat)
    requires Separate(p, others, nextRecord) && SameEvidence(p.a, p'.a) && SameEvidence(p.b, p'.b)
    ensures Separate(p', others, nextRecord)
  {
    hide SameEvidence, Numbered, Apart;
    NumberedKin(p.a, p'.a, nextRecord);
    NumberedKin(p.b, p'.b, nextRecord);
    SameEvidenceApart(p, p');
    forall z <- others ensures (forall x <- p'.a :: x.id != z.id) && (forall y <- p'.b :: y.id != z.id) {
      SameEvidenceAway(p.a, p'.a, z.id);
      SameEvidenceAway(p.b, p'.b, z.id);
    }
  }

  // ---------------------------------------------------------------- a join

  /** A join adds one partner to each of the two records and changes no other. */
  lemma JoinAdds(p: Scan, i: nat, k: nat, now: int)
    requires i < |p.a| && k < |p.b|
    ensures var r := JoinAt(p, i, k, now);
            && r.a == p.a[i := r.a[i]] && r.b == p.b[k := r.b[k]]
            && r.a[i].id == p.a[i].id && r.a[i].partners == p.a[i].partners + [p.b[k].id]
            && r.b[k].id == p.b[k].id && r.b[k].partners == p.b[k].partners + [p.a[i].id]
  {
    hide AssignOrExtend, EdgeOf;
    var a, b := Partnered(p.a[i], p.b[k]), Partnered(p.b[k], p.a[i]);
    LinkKeepsEvidence(p.book, a, b, EdgeOf(a, b), now);
  }

  lemma OnceMore(x: RingRecord, x': RingRecord, id: nat, nextRecord: nat)
    requires OnceEach(x, nextRecord) && id !in x.partners && id < nextRecord && x'.partners == x.partners + [id]
    ensures OnceEach(x', nextRecord)
  {
  }

  /** A record with one partner more stays mutual with everyone who is not that partner. */
  lemma StaysMutual(x: RingRecord, x': RingRecord, id: nat, z: RingRecord)
    requires Mutual(x, z) && x'.id == x.id && x'.partners == x.partners + [id] && z.id != id
    ensures Mutual(x', z) && Mutual(z, x')
  {
  }

  lemma UpdatedRing(ring: seq<RingRecord>, i: nat, x: RingRecord)
    requires i < |ring|
    ensures forall y <- ring[i := x] :: y == x || y in ring
  {
    var ring' := ring[i := x];
    forall y <- ring' ensures y == x || y in ring {
      var n :| 0 <= n < |ring'| && ring'[n] == y;
      if n != i { assert ring[n] == y; }
    }
  }

  lemma UpdatedOnce(ring: seq<RingRecord>, i: nat, x: RingRecord, nextRecord: nat)
    requires i < |ring| && RingOnce(ring, nextRecord) && OnceEach(x, nextRecord)
    ensures RingOnce(ring[i := x], nextRecord)
  {
    hide OnceEach;
    UpdatedRing(ring, i, x);
  }

  lemma OtherId(ring: seq<RingRecord>, i: nat, n: nat, nextRecord: nat)
    requires Numbered(ring, nextRecord) && i < |ring| && n < |ring| && n != i
    ensures ring[i].id != ring[n].id
  {
  }

  lemma JoinKeepsMutual(p: Scan, i: nat, k: nat, now: int, others: set<RingRecord>, nextRecord: nat)
    requires Separate(p, others, nextRecord) && RingsMutual(p.a, p.b) && i < |p.a| && k < |p.b|
    ensures RingsMutual(JoinAt(p, i, k, now).a, JoinAt(p, i, k, now).b)
  {
    hide JoinAt, Mutual, Numbered, Apart;
    var r := JoinAt(p, i, k, now);
    JoinAdds(p, i, k, now);
    assert p.a[i] in p.a && p.b[k] in p.b;
    forall x <- r.a, y <- r.b ensures Mutual(x, y) {
      var m :| 0 <= m < |r.a| && r.a[m] == x;
      var n :| 0 <= n < |r.b| && r.b[n] == y;
      MutualAt(p, i, k, now, others, nextRecord, m, n);
    }
  }

  lemma MutualAt(p: Scan, i: nat, k: nat, now: int, others: set<RingRecord>, nextRecord: nat, m: nat, n: nat)
    requires Separate(p, others, nextRecord) && RingsMutual(p.a, p.b) && i < |p.a| && k < |p.b| && m < |p.a|
             && n < |p.b|
    ensures Mutual(JoinAt(p, i, k, now).a[m], JoinAt(p, i, k, now).b[n])
  {
    hide JoinAt, Numbered, Apart;
    var r := JoinAt(p, i, k, now);
    JoinAdds(p, i, k, now);
    assert p.a[m] in p.a && p.b[n] in p.b && p.a[i] in p.a && p.b[k] in p.b;
    if m != i { OtherId(p.a, i, m, nextRecord); }
    if n != k { OtherId(p.b, k, n, nextRecord); }
  }

  lemma JoinKeepsPaired(p: Scan, i: nat, k: nat, now: int, others: set<RingRecord>, nextRecord: nat)
    requires Separate(p, others, nextRecord) && ScanPaired(p, others, nextRecord)
    requires i < |p.a| && k < |p.b| && Joinable(p.a[i], p.b[k])
    ensures ScanPaired(JoinAt(p, i, k, now), others, nextRecord)
  {
    hide JoinAt, EdgeOf, Mutual, OnceEach;
    var r := JoinAt(p, i, k, now);
    JoinAdds(p, i, k, now);
    assert p.a[i] in p.a && p.b[k] in p.b;
    NotYetPartners(p.a[i], p.b[k]);
    assert Mutual(p.a[i], p.b[k]);
    OnceMore(p.a[i], r.a[i], p.b[k].id, nextRecord);
    OnceMore(p.b[k], r.b[k], p.a[i].id, nextRecord);
    UpdatedOnce(p.a, i, r.a[i], nextRecord);
    UpdatedOnce(p.b, k, r.b[k], nextRecord);
    JoinKeepsMutual(p, i, k, now, others, nextRecord);
    forall z <- others ensures (forall x <- r.a :: Mutual(x, z)) && (forall y <- r.b :: Mutual(y, z)) {
      StaysMutual(p.a[i], r.a[i], p.b[k].id, z);
      StaysMutual(p.b[k], r.b[k], p.a[i].id, z);
      UpdatedRing(p.a, i, r.a[i]);
      UpdatedRing(p.b, k, r.b[k]);
    }
  }

  lemma NotYetPartners(a: RingRecord, b: RingRecord)
    requires Joinable(a, b)
    ensures b.id !in a.partners && (Mutual(a, b) ==> a.id !in b.partners)
  {
    hide EdgeOf;
  }

  lemma {:induction false} ScanKeepsPaired(p: Scan, i: nat, j: nat, w: int, now: int, others: set<RingRecord>,
                                           nextRecord: nat)
    requires Separate(p, others, nextRecord) && ScanPaired(p, others, nextRecord)
    ensures ScanPaired(TwoPointerScan(p, i, j, w, now), others, nextRecord)
    decreases |p.a| - i
  {
    hide Separate, ScanPaired, JoinAt, FirstInWindow, Slide, Joinable, SameEvidence;
    if i >= |p.a| || p.joins >= MAX_JOINS_PER_CYCLE {
    } else if !Scannable(p.a[i]) {
      ScanKeepsPaired(p, i + 1, j, w, now, others, nextRecord);
    } else {
      var time := p.a[i].record.time;
      var j' := Slide(p.b, j, time - w);
      var k := FirstInWindow(p.a[i], p.b, j', time + w);
      var _ := WindowFinds(p.a[i], p.b, j', time + w);
      if k < |p.b| { JoinKeepsPaired(p, i, k, now, others, nextRecord); }
      JoinKeepsEvidence(p, i, k, now);
      SeparateKin(p, JoinIfAny(p, i, k, now), others, nextRecord);
      ScanKeepsPaired(JoinIfAny(p, i, k, now), i + 1, j', w, now, others, nextRecord);
    }
  }

  // ---------------------------------------------------------------- the engine

  predicate Apartness(s: State) {
    (forall e <- s.rings :: Numbered(s.rings[e], s.nextRecord)) && AllApart(s.rings)
  }

  predicate Paired(s: State) {
    && (forall e <- s.rings :: RingOnce(s.rings[e], s.nextRecord))
    && forall e <- s.rings, f <- s.rings :: e != f ==> RingsMutual(s.rings[e], s.rings[f])
  }

  lemma MutualTurns(p: seq<RingRecord>, q: seq<RingRecord>)
    requires RingsMutual(p, q)
    ensures RingsMutual(q, p)
  {
  }

  lemma StartsSeparate(s: State, e: string, f: string, p: Scan)
    requires Apartness(s) && e in s.rings && f in s.rings && e != f && p.a == s.rings[e] && p.b == s.rings[f]
    ensures Separate(p, OthersOf(s, e, f), s.nextRecord)
  {
    hide Numbered;
    forall z <- OthersOf(s, e, f) ensures (forall x <- p.a :: x.id != z.id) && (forall y <- p.b :: y.id != z.id) {
      var g :| g in s.rings && z in s.rings[g] && g != e && g != f;
      assert Apart(s.rings[e], s.rings[g]) && Apart(s.rings[f], s.rings[g]);
    }
  }

  lemma StartsPaired(s: State, e: string, f: string, p: Scan)
    requires Paired(s) && e in s.rings && f in s.rings && e != f && p.a == s.rings[e] && p.b == s.rings[f]
    ensures ScanPaired(p, OthersOf(s, e, f), s.nextRecord)
  {
    hide Mutual, RingOnce;
    forall z <- OthersOf(s, e, f) ensures (forall x <- p.a :: Mutual(x, z)) && (forall y <- p.b :: Mutual(y, z)) {
      var g :| g in s.rings && z in s.rings[g] && g != e && g != f;
      assert RingsMutual(s.rings[e], s.rings[g]) && RingsMutual(s.rings[f], s.rings[g]);
    }
  }

  lemma AbsorbedPaired(c: Progress, e: string, f: string, p: Scan)
    requires Paired(c.s) && e in c.s.rings && f in c.s.rings && e != f
             && ScanPaired(p, OthersOf(c.s, e, f), c.s.nextRecord)
    ensures Paired(Absorb(c, e, f, p).s)
  {
    hide Mutual, RingOnce;
    var s' := Absorb(c, e, f, p).s;
    MutualTurns(p.a, p.b);
    forall g <- s'.rings, h <- s'.rings | g != h ensures RingsMutual(s'.rings[g], s'.rings[h]) {
      if g != e && g != f && h != e && h != f {
        assert RingsMutual(c.s.rings[g], c.s.rings[h]);
      } else if (g == e || g == f) && h != e && h != f {
        WithOther(c.s, e, f, p, h);
      } else if (h == e || h == f) && g != e && g != f {
        WithOther(c.s, e, f, p, g);
        MutualTurns(s'.rings[h], s'.rings[g]);
      }
    }
  }

  lemma WithOther(s: State, e: string, f: string, p: Scan, g: string)
    requires ScanPaired(p, OthersOf(s, e, f), s.nextRecord) && g in s.rings && g != e && g != f
    ensures RingsMutual(p.a, s.rings[g]) && RingsMutual(p.b, s.rings[g])
  {
    hide Mutual, RingOnce;
    forall z <- s.rings[g] ensures z in OthersOf(s, e, f) {}
  }

  lemma KinApart(s: State, s': State)
    requires Apartness(s) && Kin(s, s')
    ensures Apartness(s')
  {
    hide SameEvidence, Numbered, AllApart;
    SameEvidenceAllApart(s.rings, s'.rings);
    forall e <- s'.rings ensures Numbered(s'.rings[e], s'.nextRecord) {
      NumberedKin(s.rings[e], s'.rings[e], s.nextRecord);
    }
  }

  lemma PairKeepsPaired(c: Progress, e: string, f: string, now: int)
    requires Apartness(c.s) && Paired(c.s) && e in c.s.rings && f in c.s.rings && e != f
    ensures Paired(ScanPair(TwoPointer, c, e, f, now).s)
  {
    hide Apartness, Separate, ScanPaired, Paired, TwoPointerScan, OthersOf;
    var p := ScanOf(c, e, f);
    StartsSeparate(c.s, e, f, p);
    StartsPaired(c.s, e, f, p);
    ScanKeepsPaired(p, 0, 0, Prefilter(e, f), now, OthersOf(c.s, e, f), c.s.nextRecord);
    AbsorbedPaired(c, e, f, TwoPointerScan(p, 0, 0, Prefilter(e, f), now));
  }

  lemma {:induction false} PairsKeepPaired(c: Progress, endpoints: seq<string>, i: nat, j: nat, now: int)
    requires i < j && Enumerates(endpoints, c.s.rings.Keys) && Apartness(c.s) && Paired(c.s)
    ensures Paired(ScanFrom(TwoPointer, c, endpoints, i, j, now).s)
    decreases |endpoints| - i, |endpoints| - j
  {
    hide ScanPair, Apartness, Paired, SameEvidence;
    if i >= |endpoints| || c.joins >= MAX_JOINS_PER_CYCLE {
    } else if j >= |endpoints| {
      PairsKeepPaired(c, endpoints, i + 1, i + 2, now);
    } else {
      assert endpoints[i] in endpoints && endpoints[j] in endpoints;
      PairKin(c, endpoints[i], endpoints[j], now);
      KinApart(c.s, ScanPair(TwoPointer, c, endpoints[i], endpoints[j], now).s);
      PairKeepsPaired(c, endpoints[i], endpoints[j], now);
      PairsKeepPaired(ScanPair(TwoPointer, c, endpoints[i], endpoints[j], now), endpoints, i, j + 1, now);
    }
  }

  // ---------------------------------------------------------------- ageing

  /** The state after rings have been cut. */
  predicate CutOf(s: State, s': State) {
    && s'.rings.Keys == s.rings.Keys && s'.nextRecord == s.nextRecord
    && forall e <- s.rings :: Cut(s.rings[e], s'.rings[e])
  }

  lemma CutHolds(ring: seq<RingRecord>, ring': seq<RingRecord>, nextRecord: nat)
    requires Cut(ring, ring')
    ensures forall x <- ring' :: x in ring
    ensures Numbered(ring, nextRecord) ==> Numbered(ring', nextRecord)
  {
  }

  lemma CutPaired(s: State, s': State)
    requires Paired(s) && CutOf(s, s')
    ensures Paired(s')
  {
    hide Mutual, OnceEach, Cut;
    forall e <- s'.rings ensures RingOnce(s'.rings[e], s'.nextRecord) {
      CutHolds(s.rings[e], s'.rings[e], s.nextRecord);
      assert RingOnce(s.rings[e], s.nextRecord);
    }
    forall e <- s'.rings, f <- s'.rings | e != f ensures RingsMutual(s'.rings[e], s'.rings[f]) {
      CutHolds(s.rings[e], s'.rings[e], s.nextRecord);
      CutHolds(s.rings[f], s'.rings[f], s.nextRecord);
      assert RingsMutual(s.rings[e], s.rings[f]);
    }
  }

  lemma CutApart(s: State, s': State)
    requires Apartness(s) && CutOf(s, s')
    ensures Apartness(s')
  {
    hide Numbered, Cut;
    forall e <- s'.rings ensures Numbered(s'.rings[e], s'.nextRecord) {
      CutHolds(s.rings[e], s'.rings[e], s.nextRecord);
    }
    forall e <- s'.rings, f <- s'.rings | e != f ensures Apart(s'.rings[e], s'.rings[f]) {
      CutHolds(s.rings[e], s'.rings[e], s.nextRecord);
      CutHolds(s.rings[f], s'.rings[f], s.nextRecord);
      assert Apart(s.rings[e], s.rings[f]);
    }
  }

  lemma CycleKeepsPaired(s: State, endpoints: seq<string>, order: seq<nat>, now: int)
    requires Apartness(s) && Paired(s) && Enumerates(endpoints, s.rings.Keys)
    ensures var r := Cycle(TwoPointer, s, endpoints, order, now).s; Apartness(r) && Paired(r)
  {
    hide Apartness, Paired, Aged, ScanFrom, Enumerates, Cut, Kin;
    AgedRings(s, endpoints, order, now);
    var aged := Aged(s, endpoints, order, now);
    CutPaired(s, aged.0);
    CutApart(s, aged.0);
    PairsKin(Progress(aged.0, 0, aged.1), endpoints, 0, 1, now);
    KinApart(aged.0, Cycle(TwoPointer, s, endpoints, order, now).s);
    PairsKeepPaired(Progress(aged.0, 0, aged.1), endpoints, 0, 1, now);
  }

  // ---------------------------------------------------------------- new lines

  /** A new record has no partner yet, and its id is nobody's. */
  lemma NewIsMutual(x: RingRecord, y: RingRecord, nextRecord: nat)
    requires x.partners == [] && x.id == nextRecord && OnceEach(y, nextRecord)
    ensures Mutual(x, y) && Mutual(y, x)
  {
  }

  lemma OnceLater(x: RingRecord, nextRecord: nat)
    requires OnceEach(x, nextRecord)
    ensures OnceEach(x, nextRecord + 1)
  {
  }

  lemma NoPartners(x: RingRecord, nextRecord: nat)
    requires x.partners == []
    ensures OnceEach(x, nextRecord)
  {
  }

  lemma NextAfterIngest(s: State, endpoint: string, line: string)
    ensures Ingest(s, endpoint, line).nextRecord == if IsBehavioural(line) then s.nextRecord + 1 else s.nextRecord
    ensures !IsBehavioural(line) ==> Ingest(s, endpoint, line) == s
  {
    hide StoredRecord, IsBehavioural;
  }

  lemma IngestKeepsPaired(s: State, endpoint: string, line: string)
    requires Paired(s)
    ensures Paired(Ingest(s, endpoint, line))
  {
    hide Ingest, OnceEach, Mutual, IsBehavioural, StoredRecord;
    var s' := Ingest(s, endpoint, line);
    NextAfterIngest(s, endpoint, line);
    if IsBehavioural(line) {
      forall f <- s'.rings, x <- s'.rings[f] ensures OnceEach(x, s'.nextRecord) {
        IngestedRing(s, endpoint, line, f, x);
        if f in s.rings && x in s.rings[f] { OnceLater(x, s.nextRecord); } else { NoPartners(x, s'.nextRecord); }
      }
      forall f <- s'.rings, g <- s'.rings, x <- s'.rings[f], y <- s'.rings[g] | f != g ensures Mutual(x, y) {
        IngestedRing(s, endpoint, line, f, x);
        IngestedRing(s, endpoint, line, g, y);
        if f in s.rings && x in s.rings[f] && g in s.rings && y in s.rings[g] {
          assert RingsMutual(s.rings[f], s.rings[g]);
        } else if f in s.rings && x in s.rings[f] {
          NewIsMutual(y, x, s.nextRecord);
        } else {
          NewIsMutual(x, y, s.nextRecord);
        }
      }
    }
  }

  lemma IdBelow(s: State, e: string, x: RingRecord)
    requires Apartness(s) && e in s.rings && x in s.rings[e]
    ensures x.id < s.nextRecord
  {
    assert Numbered(s.rings[e], s.nextRecord);
  }

  lemma IngestNumbered(s: State, endpoint: string, line: string, e: string)
    requires Apartness(s) && e in Ingest(s, endpoint, line).rings
    ensures Numbered(Ingest(s, endpoint, line).rings[e], Ingest(s, endpoint, line).nextRecord)
  {
    hide StoredRecord, IsBehavioural, AllApart;
    if IsBehavioural(line) {
      if e == endpoint {
        NumberedMore(RingOf(s, e), RingRecord(s.nextRecord, StoredRecord(endpoint, line), 0, []), s.nextRecord);
      } else {
        assert Numbered(s.rings[e], s.nextRecord);
      }
    }
  }

  lemma NumberedMore(ring: seq<RingRecord>, x: RingRecord, nextRecord: nat)
    requires Numbered(ring, nextRecord) && x.id == nextRecord
    ensures Numbered(ring + [x], nextRecord + 1) && Numbered((ring + [x])[1..], nextRecord + 1)
  {
    forall i | 0 <= i < |ring| ensures ring[i].id < x.id { assert ring[i] in ring; }
  }

  lemma IngestKeepsApart(s: State, endpoint: string, line: string)
    requires Apartness(s)
    ensures Apartness(Ingest(s, endpoint, line))
  {
    hide Ingest, IsBehavioural, Numbered, StoredRecord, Apartness;
    var s' := Ingest(s, endpoint, line);
    forall e <- s'.rings ensures Numbered(s'.rings[e], s'.nextRecord) { IngestNumbered(s, endpoint, line, e); }
    forall f <- s'.rings, g <- s'.rings | f != g ensures Apart(s'.rings[f], s'.rings[g]) {
      forall x <- s'.rings[f], y <- s'.rings[g] ensures x.id != y.id {
        IngestedApart(s, endpoint, line, f, x, g, y);
      }
    }
    assert AllApart(s'.rings);
    ApartnessOf(s');
  }

  lemma ApartnessOf(s: State)
    requires (forall e <- s.rings :: Numbered(s.rings[e], s.nextRecord)) && AllApart(s.rings)
    ensures Apartness(s)
  {
  }

  lemma IngestedApart(s: State, endpoint: string, line: string, f: string, x: RingRecord, g: string, y: RingRecord)
    requires Apartness(s) && f != g
    requires f in Ingest(s, endpoint, line).rings && x in Ingest(s, endpoint, line).rings[f]
    requires g in Ingest(s, endpoint, line).rings && y in Ingest(s, endpoint, line).rings[g]
    ensures x.id != y.id
  {
    hide Ingest, IsBehavioural, Numbered, StoredRecord;
    IngestedRing(s, endpoint, line, f, x);
    IngestedRing(s, endpoint, line, g, y);
    if f in s.rings && x in s.rings[f] { IdBelow(s, f, x); }
    if g in s.rings && y in s.rings[g] { IdBelow(s, g, y); }
    if f in s.rings && x in s.rings[f] && g in s.rings && y in s.rings[g] { assert Apart(s.rings[f], s.rings[g]); }
  }

  // ---------------------------------------------------------------- whole runs

  lemma {:induction false} EveryRunIsPaired(events: seq<Event>, w: World)
    requires Played(events, w)
    ensures Apartness(w.s) && Paired(w.s)
    decreases |events|
  {
    hide Apartness, Paired, Ingest, Cycle, Enumerates;
    if events == [] {
      EmptyIsPaired();
    } else {
      var front, last := events[..|events| - 1], events[|events| - 1];
      var before :| Played(front, before) && Iterates(before, last) && w == Next(before, last);
      EveryRunIsPaired(front, before);
      match last
      case Feed(now, endpoint, line) =>
        IngestKeepsPaired(before.s, endpoint, line);
        IngestKeepsApart(before.s, endpoint, line);
      case Correlate(now, endpoints, order) =>
        CycleKeepsPaired(before.s, endpoints, order, now);
    }
  }

  lemma EmptyIsPaired()
    ensures Apartness(EMPTY_ENGINE) && Paired(EMPTY_ENGINE)
  {
  }

  /** Over every run, whatever is fed and when: no pair of records is joined
      twice, and of two records in rings each lists the other or neither does. */
  lemma NoPairTwice(events: seq<Event>, w: World, e: string, x: RingRecord, f: string, y: RingRecord)
    requires Played(events, w) && e in w.s.rings && x in w.s.rings[e] && f in w.s.rings && y in w.s.rings[f] && e != f
    ensures forall i, j :: 0 <= i < j < |x.partners| ==> x.partners[i] != x.partners[j]
    ensures y.id in x.partners <==> x.id in y.partners
  {
    hide Played, Apartness;
    EveryRunIsPaired(events, w);
    assert RingOnce(w.s.rings[e], w.s.nextRecord) && RingsMutual(w.s.rings[e], w.s.rings[f]);
    assert OnceEach(x, w.s.nextRecord) && Mutual(x, y);
  }
}
