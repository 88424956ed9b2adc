/** What scanning a pair of rings, and a whole cycle, keeps of the engine's state and of the published log. */
module CorrelationRings {
  import opened Evidence
  import opened CorrelationSpec
  import opened CorrelationScan
  import opened CorrelationGroups
  import opened CorrelationLog

  // ---------------------------------------------------------------- rings

  /** Ids grow along a ring, and its records belong to `e`, are no newer than the clock and have known ids. */
  predicate Filed(ring: seq<RingRecord>, e: string, now: int, nextRecord: nat) {
    && (forall i, j :: 0 <= i < j < |ring| ==> ring[i].id < ring[j].id)
    && forall x <- ring :: x.record.endpoint == e && x.record.time <= now && x.id < nextRecord
  }

  predicate Apart(ring: seq<RingRecord>, other: seq<RingRecord>) {
    forall x <- ring, y <- other :: x.id != y.id
  }

  ghost predicate AllOk(xs: seq<RingRecord>, book: Book) {
    forall x <- xs :: RecordOk(x, book)
  }

  /** Records of the other rings, which the scan of two rings does not touch. */
  ghost predicate OthersOk(others: set<RingRecord>, p: Scan) {
    forall x <- others :: RecordOk(x, p.book) && (forall y <- p.a :: x.id != y.id) && (forall y <- p.b :: x.id != y.id)
  }

  /** All ids in groups are ids that were given out. */
  ghost predicate KnownIds(book: Book, nextRecord: nat) {
    forall g <- book.chains, id: nat :: HoldsId(book.chains[g], id) ==> id < nextRecord
  }

  datatype Frame = Frame(e: string, f: string, now: int, nextRecord: nat, others: set<RingRecord>, log: seq<Revision>)

  ghost predicate RingsFiled(p: Scan, c: Frame) {
    && c.e != c.f && Filed(p.a, c.e, c.now, c.nextRecord) && Filed(p.b, c.f, c.now, c.nextRecord) && Apart(p.a, p.b)
  }

  ghost predicate ScanKept(p: Scan, c: Frame) {
    && RingsFiled(p, c)
    && BookOk(p.book, c.now) && KnownIds(p.book, c.nextRecord)
    && AllOk(p.a, p.book) && AllOk(p.b, p.book) && OthersOk(c.others, p)
    && LogOk(c.log + p.out, p.book)
    && p.joins <= MAX_JOINS_PER_CYCLE
  }

  // ---------------------------------------------------------------- joining two records

  function Partnered(x: RingRecord, y: RingRecord): RingRecord { x.(partners := x.partners + [y.id]) }

  lemma PartneredIsPlaced(x: RingRecord, y: RingRecord, book: Book)
    requires Placed(x, book)
    ensures Placed(Partnered(x, y), book)
  {
    hide HoldsId;
  }

  lemma JoinedAreLinkable(p: Scan, c: Frame, i: nat, k: nat)
    requires ScanKept(p, c) && i < |p.a| && k < |p.b| && Joinable(p.a[i], p.b[k])
    ensures var a, b := Partnered(p.a[i], p.b[k]), Partnered(p.b[k], p.a[i]);
            Linkable(p.book, a, b, c.now) && EdgeOf(a, b) == EdgeOf(p.a[i], p.b[k])
    ensures BookOk(p.book, c.now)
  {
    hide BookOk, KnownIds, OthersOk, LogOk, Placed, EvaluateEdge;
    assert p.a[i] in p.a && p.b[k] in p.b;
    PartneredIsPlaced(p.a[i], p.b[k], p.book);
    PartneredIsPlaced(p.b[k], p.a[i], p.book);
  }

  /** A record elsewhere keeps its place through a join. */
  lemma JoinKeepsOther(p: Scan, c: Frame, i: nat, k: nat, x: RingRecord)
    requires ScanKept(p, c) && i < |p.a| && k < |p.b| && Joinable(p.a[i], p.b[k])
    requires RecordOk(x, p.book) && x.id != p.a[i].id && x.id != p.b[k].id
    ensures RecordOk(x, JoinAt(p, i, k, c.now).book)
  {
    hide ScanKept, Placed, AssignOrExtend, Linkable, EdgeOf, Joinable, BookOk;
    JoinedAreLinkable(p, c, i, k);
    LinkKeepsOthers(p.book, Partnered(p.a[i], p.b[k]), Partnered(p.b[k], p.a[i]), c.now, x);
  }

  /** The two joined records are in order afterwards, each with one partner more. */
  lemma JoinKeepsPair(p: Scan, c: Frame, i: nat, k: nat)
    requires ScanKept(p, c) && i < |p.a| && k < |p.b| && Joinable(p.a[i], p.b[k])
    requires |p.a[i].partners| < MAX_JOINS_PER_RECORD
    ensures var p' := JoinAt(p, i, k, c.now); RecordOk(p'.a[i], p'.book) && RecordOk(p'.b[k], p'.book)
  {
    hide ScanKept, Placed, AssignOrExtend, Linkable, EdgeOf, BookOk;
    JoinedAreLinkable(p, c, i, k);
    var a, b := Partnered(p.a[i], p.b[k]), Partnered(p.b[k], p.a[i]);
    LinkPlaces(p.book, a, b, c.now);
    LinkKeepsEvidence(p.book, a, b, EdgeOf(a, b), c.now);
  }

  lemma JoinUpdates(p: Scan, i: nat, k: nat, now: int)
    requires i < |p.a| && k < |p.b|
    ensures var p' := JoinAt(p, i, k, now); p'.a == p.a[i := p'.a[i]] && p'.b == p.b[k := p'.b[k]]
  {
    hide AssignOrExtend;
  }

  lemma JoinKeepsRings(p: Scan, c: Frame, i: nat, k: nat)
    requires ScanKept(p, c) && i < |p.a| && k < |p.b| && Joinable(p.a[i], p.b[k])
             && |p.a[i].partners| < MAX_JOINS_PER_RECORD
    ensures var p' := JoinAt(p, i, k, c.now); AllOk(p'.a, p'.book) && AllOk(p'.b, p'.book)
  {
    hide JoinAt, Joinable, RecordOk, BookOk, KnownIds, OthersOk, LogOk;
    var p' := JoinAt(p, i, k, c.now);
    JoinUpdates(p, i, k, c.now);
    JoinKeepsPair(p, c, i, k);
    assert p.a[i] in p.a && p.b[k] in p.b;
    forall x <- p'.a ensures RecordOk(x, p'.book) {
      var n :| 0 <= n < |p'.a| && p'.a[n] == x;
      if n != i { assert p.a[n] in p.a; JoinKeepsOther(p, c, i, k, x); }
    }
    forall x <- p'.b ensures RecordOk(x, p'.book) {
      var n :| 0 <= n < |p'.b| && p'.b[n] == x;
      if n != k { assert p.b[n] in p.b; JoinKeepsOther(p, c, i, k, x); }
    }
  }

  lemma SameEvidenceFiled(ring: seq<RingRecord>, ring': seq<RingRecord>, e: string, now: int, nextRecord: nat)
    requires SameEvidence(ring, ring') && Filed(ring, e, now, nextRecord)
    ensures Filed(ring', e, now, nextRecord)
  {
    forall x <- ring' ensures x.record.endpoint == e && x.record.time <= now && x.id < nextRecord {
      var i :| 0 <= i < |ring'| && ring'[i] == x;
      assert ring[i] in ring;
    }
  }

  lemma SameEvidenceAway(ring: seq<RingRecord>, ring': seq<RingRecord>, id: nat)
    requires SameEvidence(ring, ring') && forall y <- ring :: id != y.id
    ensures forall y <- ring' :: id != y.id
  {
    forall y <- ring' ensures id != y.id {
      var i :| 0 <= i < |ring'| && ring'[i] == y;
      assert ring[i] in ring;
    }
  }

  lemma SameEvidenceApart(p: Scan, p': Scan)
    requires SameEvidence(p.a, p'.a) && SameEvidence(p.b, p'.b) && Apart(p.a, p.b)
    ensures Apart(p'.a, p'.b)
  {
    hide SameEvidence;
    forall x <- p'.a, y <- p'.b ensures x.id != y.id {
      forall z <- p.b ensures z.id != x.id {
        SameEvidenceAway(p.a, p'.a, z.id);
      }
      SameEvidenceAway(p.b, p'.b, x.id);
    }
  }

  lemma JoinKeepsFiled(p: Scan, c: Frame, p': Scan)
    requires RingsFiled(p, c) && SameEvidence(p.a, p'.a) && SameEvidence(p.b, p'.b)
    ensures RingsFiled(p', c)
  {
    hide Filed, SameEvidence, Apart;
    SameEvidenceFiled(p.a, p'.a, c.e, c.now, c.nextRecord);
    SameEvidenceFiled(p.b, p'.b, c.f, c.now, c.nextRecord);
    SameEvidenceApart(p, p');
  }

  lemma JoinKeepsOthers(p: Scan, c: Frame, i: nat, k: nat)
    requires ScanKept(p, c) && i < |p.a| && k < |p.b| && Joinable(p.a[i], p.b[k])
    requires SameEvidence(p.a, JoinAt(p, i, k, c.now).a) && SameEvidence(p.b, JoinAt(p, i, k, c.now).b)
    ensures OthersOk(c.others, JoinAt(p, i, k, c.now))
  {
    hide JoinAt, Joinable, RecordOk, BookOk, KnownIds, LogOk, SameEvidence, RingsFiled;
    var p' := JoinAt(p, i, k, c.now);
    assert p.a[i] in p.a && p.b[k] in p.b;
    forall x <- c.others ensures RecordOk(x, p'.book) && (forall y <- p'.a :: x.id != y.id)
      && (forall y <- p'.b :: x.id != y.id) {
      JoinKeepsOther(p, c, i, k, x);
      SameEvidenceAway(p.a, p'.a, x.id);
      SameEvidenceAway(p.b, p'.b, x.id);
    }
  }

  lemma LinkKeepsKnown(book: Book, a: RingRecord, b: RingRecord, now: int, nextRecord: nat)
    requires BookOk(book, now) && Linkable(book, a, b, now) && KnownIds(book, nextRecord) && a.id < nextRecord
             && b.id < nextRecord
    ensures KnownIds(AssignOrExtend(book, a, b, EdgeOf(a, b), now).book, nextRecord)
  {
    hide BookOk, Linkable, AssignOrExtend, EdgeOf, HoldsId, ChainOk, DistinctIds;
    LinkChanges(book, a, b, now);
    var l := AssignOrExtend(book, a, b, EdgeOf(a, b), now);
    if l.group != 0 { EmptyHoldsNothing(book, l.group); }
  }

  lemma GainedSomething(book: Book, a: RingRecord, b: RingRecord, now: int)
    requires AssignOrExtend(book, a, b, EdgeOf(a, b), now).group != 0
    ensures Gained(book, a, b, now) != {}
  {
    hide EdgeOf, Extend, ChainAt;
    assert a.group != 0 ==> b.group == 0;
    assert a.group == 0 ==> a.id in Gained(book, a, b, now);
    assert b.group == 0 ==> b.id in Gained(book, a, b, now);
  }

  lemma LinkKeepsLog(log: seq<Revision>, book: Book, a: RingRecord, b: RingRecord, now: int)
    requires BookOk(book, now) && Linkable(book, a, b, now) && LogOk(log, book)
    ensures var l := AssignOrExtend(book, a, b, EdgeOf(a, b), now);
            LogOk(if l.group != 0 then log + [Published(l.book, l.group)] else log, l.book)
  {
    hide BookOk, Linkable, AssignOrExtend, EdgeOf, Changes, LogOk, Gained;
    LinkChanges(book, a, b, now);
    var l := AssignOrExtend(book, a, b, EdgeOf(a, b), now);
    if l.group != 0 {
      GainedSomething(book, a, b, now);
      PublishKeeps(log, book, l.book, l.group, l.book.chains[l.group], Gained(book, a, b, now), now);
    } else {
      SameChainsLog(log, book, l.book);
    }
  }

  lemma JoinKeepsBook(p: Scan, c: Frame, i: nat, k: nat)
    requires ScanKept(p, c) && i < |p.a| && k < |p.b| && Joinable(p.a[i], p.b[k])
    ensures var p' := JoinAt(p, i, k, c.now);
            BookOk(p'.book, c.now) && KnownIds(p'.book, c.nextRecord) && LogOk(c.log + p'.out, p'.book)
  {
    hide Placed, AssignOrExtend, Linkable, EdgeOf, Joinable, BookOk, KnownIds, LogOk, AllOk, OthersOk;
    JoinedAreLinkable(p, c, i, k);
    var a, b := Partnered(p.a[i], p.b[k]), Partnered(p.b[k], p.a[i]);
    assert p.a[i] in p.a && p.b[k] in p.b;
    LinkKeepsBook(p.book, a, b, c.now);
    LinkKeepsKnown(p.book, a, b, c.now, c.nextRecord);
    LinkKeepsLog(c.log + p.out, p.book, a, b, c.now);
    var l := AssignOrExtend(p.book, a, b, EdgeOf(a, b), c.now);
    assert c.log + (p.out + [Published(l.book, l.group)]) == c.log + p.out + [Published(l.book, l.group)];
  }

  /** Joining keeps everything. */
  lemma JoinKeeps(p: Scan, c: Frame, i: nat, k: nat)
    requires ScanKept(p, c) && i < |p.a| && k < |p.b| && Joinable(p.a[i], p.b[k])
    requires |p.a[i].partners| < MAX_JOINS_PER_RECORD && p.joins < MAX_JOINS_PER_CYCLE
    ensures ScanKept(JoinAt(p, i, k, c.now), c)
  {
    hide RingsFiled, BookOk, KnownIds, LogOk, AllOk, OthersOk, Joinable, SameEvidence;
    JoinKeepsEvidence(p, i, k, c.now);
    JoinKeepsFiled(p, c, JoinAt(p, i, k, c.now));
    JoinKeepsRings(p, c, i, k);
    JoinKeepsOthers(p, c, i, k);
    JoinKeepsBook(p, c, i, k);
    JoinCounts(p, i, k, c.now);
  }

  lemma JoinCounts(p: Scan, i: nat, k: nat, now: int)
    requires i < |p.a| && k < |p.b|
    ensures JoinAt(p, i, k, now).joins <= p.joins + 1
  {
    hide AssignOrExtend, EdgeOf;
  }

  // ---------------------------------------------------------------- the scan of two rings

  /** The scan keeps everything, whatever the prefilter and the order of the rings. */
  lemma {:induction false} ScanKeeps(p: Scan, c: Frame, i: nat, j: nat, w: int)
    requires ScanKept(p, c)
    ensures var p' := TwoPointerScan(p, i, j, w, c.now);
            ScanKept(p', c) && SameEvidence(p.a, p'.a) && SameEvidence(p.b, p'.b)
    decreases |p.a| - i
  {
    hide ScanKept, JoinAt, FirstInWindow, Slide, Joinable;
    if i >= |p.a| || p.joins >= MAX_JOINS_PER_CYCLE {
    } else if !Scannable(p.a[i]) {
      ScanKeeps(p, c, i + 1, j, w);
    } else {
      var time := p.a[i].record.time;
      var j' := Slide(p.b, j, time - w);
      var k := FirstInWindow(p.a[i], p.b, j', time + w);
      var _ := WindowFinds(p.a[i], p.b, j', time + w);
      if k < |p.b| { JoinKeeps(p, c, i, k); }
      var p' := JoinIfAny(p, i, k, c.now);
      JoinKeepsEvidence(p, i, k, c.now);
      ScanKeeps(p', c, i + 1, j', w);
      SameEvidenceTwice(p.a, p'.a, TwoPointerScan(p', i + 1, j', w, c.now).a);
      SameEvidenceTwice(p.b, p'.b, TwoPointerScan(p', i + 1, j', w, c.now).b);
    }
  }

  lemma SameEvidenceTwice(r0: seq<RingRecord>, r1: seq<RingRecord>, r2: seq<RingRecord>)
    requires SameEvidence(r0, r1) && SameEvidence(r1, r2)
    ensures SameEvidence(r0, r2)
  {
  }
}
