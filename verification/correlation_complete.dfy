/** What a correlation cycle does not leave undone: related records find partners, and partners end in one group. */
module CorrelationComplete {
  import opened Evidence
  import opened EvidenceExact
  import opened CorrelationSpec
  import opened CorrelationScan
  import opened CorrelationPartners
  import opened CorrelationGroups
  import opened CorrelationRings
  import opened CorrelationInvariant
  import opened CorrelationRuns
  import opened CorrelationOrder

  // ---------------------------------------------------------------- growth

  /** The same record with no partner lost, and its group kept once it has one. */
  predicate Grown(x: RingRecord, y: RingRecord) {
    && x.id == y.id && x.record == y.record && x.partners <= y.partners
    && (x.group != 0 ==> y.group == x.group)
  }

  predicate RingGrown(ring: seq<RingRecord>, ring': seq<RingRecord>) {
    |ring| == |ring'| && forall i :: 0 <= i < |ring| ==> Grown(ring[i], ring'[i])
  }

  lemma GrownTwice(r0: seq<RingRecord>, r1: seq<RingRecord>, r2: seq<RingRecord>)
    requires RingGrown(r0, r1) && RingGrown(r1, r2)
    ensures RingGrown(r0, r2)
  {
    forall i | 0 <= i < |r0| ensures Grown(r0[i], r2[i]) {
      assert Grown(r0[i], r1[i]) && Grown(r1[i], r2[i]);
    }
  }

  lemma GrownItself(ring: seq<RingRecord>)
    ensures RingGrown(ring, ring)
  {
  }

  function Total(d: Declines): nat { d.size + d.active + d.crossMerge }

  /** What one link does to the two records and to the counts of refused links. */
  lemma LinkGrows(book: Book, a: RingRecord, b: RingRecord, edge: Edge, now: int)
    ensures var l := AssignOrExtend(book, a, b, edge, now);
            && Grown(a, l.a) && Grown(b, l.b) && l.a.partners == a.partners && l.b.partners == b.partners
            && Total(book.declines) <= Total(l.book.declines)
            && (Total(book.declines) == Total(l.book.declines) && book.nextGroup != 0 ==>
                  l.a.group == l.b.group && l.a.group != 0)
            && l.book.nextGroup >= book.nextGroup
  {
    hide ChainAt;
  }

  /** A link is refused, and counted under its reason, exactly when the two records sit in different groups,
      when they sit in none and 500 groups are live, or when the group of one of them has eight members. */
  lemma RefusedExactly(book: Book, a: RingRecord, b: RingRecord, edge: Edge, now: int)
    requires a.group != 0 ==> a.group in book.chains
    requires b.group != 0 ==> b.group in book.chains
    ensures var l := AssignOrExtend(book, a, b, edge, now);
            Total(l.book.declines) > Total(book.declines)
            <==> || (a.group != 0 && b.group != 0 && a.group != b.group)
                 || (a.group == 0 && b.group == 0 && |book.chains| >= 500)
                 || (a.group != 0 && b.group == 0 && |book.chains[a.group].members| >= 8)
                 || (a.group == 0 && b.group != 0 && |book.chains[b.group].members| >= 8)
    ensures var d, d' := book.declines, AssignOrExtend(book, a, b, edge, now).book.declines;
            && d'.crossMerge == d.crossMerge + (if a.group != 0 && b.group != 0 && a.group != b.group then 1 else 0)
            && d'.active == d.active + (if a.group == 0 && b.group == 0 && |book.chains| >= 500 then 1 else 0)
            && Total(d') <= Total(d) + 1
  {
  }

  // ---------------------------------------------------------------- joins

  lemma JoinGrows(p: Scan, i: nat, k: nat, now: int)
    requires i < |p.a| && k < |p.b|
    ensures var r := JoinAt(p, i, k, now);
            && r.a == p.a[i := r.a[i]] && r.b == p.b[k := r.b[k]]
            && Grown(p.a[i], r.a[i]) && Grown(p.b[k], r.b[k])
            && r.a[i].partners == p.a[i].partners + [p.b[k].id] && r.b[k].partners == p.b[k].partners + [p.a[i].id]
            && p.joins <= r.joins && Total(p.book.declines) <= Total(r.book.declines)
            && (Total(p.book.declines) == Total(r.book.declines) && p.book.nextGroup != 0 ==>
                  r.a[i].group == r.b[k].group && r.a[i].group != 0)
            && r.book.nextGroup >= p.book.nextGroup
  {
    hide AssignOrExtend, EdgeOf;
    var a, b := Partnered(p.a[i], p.b[k]), Partnered(p.b[k], p.a[i]);
    LinkGrows(p.book, a, b, EdgeOf(a, b), now);
  }

  lemma UpdatedGrown(ring: seq<RingRecord>, i: nat, x: RingRecord)
    requires i < |ring| && Grown(ring[i], x)
    ensures RingGrown(ring, ring[i := x])
  {
  }

  // ---------------------------------------------------------------- every record that can finds a partner

  /** A record with a time and less than four partners got one more, or every
      record of `bs` that is related to it and not its partner yet has four. */
  predicate Settled(a: RingRecord, a': RingRecord, bs: seq<RingRecord>) {
    a.record.time != 0 && |a.partners| < 4 ==>
      || |a.partners| < |a'.partners|
      || forall b <- bs :: Related(a.record, b.record, 2000) && b.id !in a.partners ==> |b.partners| >= 4
  }

  /** Nothing in the ring can be joined. */
  lemma NoneLeft(a: RingRecord, ring: seq<RingRecord>, ring': seq<RingRecord>)
    requires FirstJoinable(a, ring, 0) == |ring| && RingGrown(ring, ring')
    ensures Settled(a, a, ring')
  {
    hide Related, Joinable, FirstJoinable;
    FirstJoinableFinds(a, ring, 0);
    forall b' <- ring' | Related(a.record, b'.record, 2000) && b'.id !in a.partners ensures |b'.partners| >= 4 {
      var k :| 0 <= k < |ring'| && ring'[k] == b';
      assert Grown(ring[k], ring'[k]);
      MatchesExactly(a.record, ring[k].record, 2000);
      NotJoinable(a, ring[k]);
    }
  }

  lemma NotJoinable(a: RingRecord, b: RingRecord)
    requires !Joinable(a, b) && EvaluateEdge(a.record, b.record, 2000).matched && b.id !in a.partners
    ensures |b.partners| >= 4
  {
  }

  lemma StaysSettled(a: RingRecord, a': RingRecord, a'': RingRecord, bs: seq<RingRecord>, bs': seq<RingRecord>)
    requires Settled(a, a', bs) && Grown(a', a'') && RingGrown(bs, bs')
    ensures Settled(a, a'', bs')
  {
    hide Related;
    if a.record.time != 0 && |a.partners| < 4 && |a.partners| >= |a'.partners| {
      forall b' <- bs' | Related(a.record, b'.record, 2000) && b'.id !in a.partners ensures |b'.partners| >= 4 {
        var k :| 0 <= k < |bs'| && bs'[k] == b';
        assert Grown(bs[k], bs'[k]) && bs[k] in bs;
      }
    }
  }

  /** The naive scan settles every record from position i on, unless it reaches the cycle's limit of 100 joins. */
  lemma {:induction false} NaiveSettles(p: Scan, i: nat, now: int)
    ensures var r := NaiveScan(p, i, now);
            && RingGrown(p.a, r.a) && RingGrown(p.b, r.b) && p.joins <= r.joins
            && (r.joins < 100 ==> forall n :: i <= n < |p.a| ==> Settled(p.a[n], r.a[n], r.b))
    decreases |p.a| - i
  {
    hide Settled, JoinAt, FirstJoinable, Grown;
    GrownRefl();
    if i < |p.a| && p.joins < MAX_JOINS_PER_CYCLE {
      if !Scannable(p.a[i]) {
        NaiveSettles(p, i + 1, now);
        SettledAnyway(p.a[i], NaiveScan(p, i + 1, now).a[i], NaiveScan(p, i + 1, now).b);
      } else {
        var k := FirstJoinable(p.a[i], p.b, 0);
        FirstInside(p.a[i], p.b);
        if k < |p.b| {
          JoinGrows(p, i, k, now);
          var p1 := JoinAt(p, i, k, now);
          UpdatedGrown(p.a, i, p1.a[i]);
          UpdatedGrown(p.b, k, p1.b[k]);
          NaiveSettles(p1, i + 1, now);
          var r := NaiveScan(p1, i + 1, now);
          GrownTwice(p.a, p1.a, r.a);
          GrownTwice(p.b, p1.b, r.b);
          OneMore(p.a[i], p1.a[i], r.a[i], r.b);
        } else {
          NaiveSettles(p, i + 1, now);
          var r := NaiveScan(p, i + 1, now);
          NoneLeft(p.a[i], p.b, r.b);
          GrownItself(r.b);
          StaysSettled(p.a[i], p.a[i], r.a[i], r.b, r.b);
        }
      }
    }
  }

  lemma GrownRefl()
    ensures forall x: RingRecord :: Grown(x, x)
  {
  }

  lemma FirstInside(a: RingRecord, ring: seq<RingRecord>)
    ensures FirstJoinable(a, ring, 0) <= |ring|
  {
    hide Joinable;
    FirstJoinableFinds(a, ring, 0);
  }

  lemma SettledAnyway(a: RingRecord, a': RingRecord, bs: seq<RingRecord>)
    requires !Scannable(a)
    ensures Settled(a, a', bs)
  {
  }

  lemma OneMore(a: RingRecord, a1: RingRecord, a': RingRecord, bs: seq<RingRecord>)
    requires |a1.partners| == |a.partners| + 1 && Grown(a1, a')
    ensures Settled(a, a', bs)
  {
  }

  // ---------------------------------------------------------------- a whole cycle

  predicate Differ(endpoints: seq<string>) {
    forall i, j :: 0 <= i < j < |endpoints| ==> endpoints[i] != endpoints[j]
  }

  predicate StateGrown(s: State, s': State) {
    s'.rings.Keys == s.rings.Keys && forall e <- s.rings :: RingGrown(s.rings[e], s'.rings[e])
  }

  /** Of two endpoints, the one whose records look for partners comes first in the iteration. */
  predicate EndpointsSettled(s: State, s': State, e: string, f: string) {
    e in s.rings && e in s'.rings && f in s'.rings ==>
      |s.rings[e]| == |s'.rings[e]|
      && forall n :: 0 <= n < |s.rings[e]| ==> Settled(s.rings[e][n], s'.rings[e][n], s'.rings[f])
  }

  /** The pairs from (i, j) on. */
  predicate PairsSettled(s: State, s': State, endpoints: seq<string>, i: nat, j: nat) {
    forall x, y :: i <= x < y < |endpoints| && (x == i ==> j <= y) ==>
      EndpointsSettled(s, s', endpoints[x], endpoints[y])
  }

  lemma EarlierSettled(a: RingRecord, a1: RingRecord, a': RingRecord, bs: seq<RingRecord>)
    requires Grown(a, a1) && Grown(a1, a') && Settled(a1, a', bs)
    ensures Settled(a, a', bs)
  {
    hide Related;
    if |a.partners| == |a1.partners| { assert a.partners == a1.partners; }
  }

  lemma SettledFromEarlier(s: State, s1: State, s': State, e: string, f: string)
    requires StateGrown(s, s1) && StateGrown(s1, s') && EndpointsSettled(s1, s', e, f)
    ensures EndpointsSettled(s, s', e, f)
  {
    hide Settled, Grown;
    if e in s.rings && f in s'.rings {
      forall n | 0 <= n < |s.rings[e]| ensures Settled(s.rings[e][n], s'.rings[e][n], s'.rings[f]) {
        assert RingGrown(s.rings[e], s1.rings[e]) && RingGrown(s1.rings[e], s'.rings[e]);
        EarlierSettled(s.rings[e][n], s1.rings[e][n], s'.rings[e][n], s'.rings[f]);
      }
    }
  }

  lemma SettledStays(s: State, s1: State, s': State, e: string, f: string)
    requires StateGrown(s, s1) && StateGrown(s1, s') && EndpointsSettled(s, s1, e, f) && e in s.rings && f in s.rings
    ensures EndpointsSettled(s, s', e, f)
  {
    hide Settled, Grown;
    forall n | 0 <= n < |s.rings[e]| ensures Settled(s.rings[e][n], s'.rings[e][n], s'.rings[f]) {
      assert RingGrown(s1.rings[e], s'.rings[e]) && RingGrown(s1.rings[f], s'.rings[f]);
      StaysSettled(s.rings[e][n], s1.rings[e][n], s'.rings[e][n], s1.rings[f], s'.rings[f]);
    }
  }

  lemma StateGrownTwice(s: State, s1: State, s': State)
    requires StateGrown(s, s1) && StateGrown(s1, s')
    ensures StateGrown(s, s')
  {
    hide RingGrown;
    forall e <- s.rings ensures RingGrown(s.rings[e], s'.rings[e]) {
      GrownTwice(s.rings[e], s1.rings[e], s'.rings[e]);
    }
  }

  lemma StateGrownItself(s: State)
    ensures StateGrown(s, s)
  {
    hide RingGrown;
    forall e <- s.rings ensures RingGrown(s.rings[e], s.rings[e]) { GrownItself(s.rings[e]); }
  }

  /** The scan of one pair. */
  lemma PairSettles(c: Progress, e: string, f: string, now: int)
    requires e in c.s.rings && f in c.s.rings && e != f
    ensures var r := ScanPair(Naive, c, e, f, now);
            && StateGrown(c.s, r.s) && c.joins <= r.joins
            && (r.joins < 100 ==> EndpointsSettled(c.s, r.s, e, f))
  {
    hide NaiveScan, Settled, RingGrown;
    var p := ScanOf(c, e, f);
    NaiveSettles(p, 0, now);
    var r := ScanPair(Naive, c, e, f, now);
    forall g <- c.s.rings ensures RingGrown(c.s.rings[g], r.s.rings[g]) { GrownItself(c.s.rings[g]); }
    SameLength(c.s.rings[e], r.s.rings[e]);
  }

  lemma SameLength(ring: seq<RingRecord>, ring': seq<RingRecord>)
    requires RingGrown(ring, ring')
    ensures |ring| == |ring'|
  {
  }

  lemma {:induction false} PairsSettle(c: Progress, endpoints: seq<string>, i: nat, j: nat, now: int)
    requires i < j && Differ(endpoints) && forall e <- endpoints :: e in c.s.rings
    ensures var r := ScanFrom(Naive, c, endpoints, i, j, now);
            && StateGrown(c.s, r.s) && c.joins <= r.joins
            && (r.joins < 100 ==> PairsSettled(c.s, r.s, endpoints, i, j))
    decreases |endpoints| - i, |endpoints| - j
  {
    hide ScanPair, StateGrown, EndpointsSettled;
    if i >= |endpoints| || c.joins >= MAX_JOINS_PER_CYCLE {
      StateGrownItself(c.s);
    } else if j >= |endpoints| {
      PairsSettle(c, endpoints, i + 1, i + 2, now);
    } else {
      var e, f := endpoints[i], endpoints[j];
      var c1 := ScanPair(Naive, c, e, f, now);
      assert e in endpoints && f in endpoints;
      PairSettles(c, e, f, now);
      GrownKeys(c.s, c1.s);
      PairsSettle(c1, endpoints, i, j + 1, now);
      var r := ScanFrom(Naive, c1, endpoints, i, j + 1, now);
      StateGrownTwice(c.s, c1.s, r.s);
      if r.joins < 100 {
        forall x, y | i <= x < y < |endpoints| && (x == i ==> j <= y)
          ensures EndpointsSettled(c.s, r.s, endpoints[x], endpoints[y])
        {
          if x == i && y == j {
            SettledStays(c.s, c1.s, r.s, e, f);
          } else {
            assert EndpointsSettled(c1.s, r.s, endpoints[x], endpoints[y]);
            SettledFromEarlier(c.s, c1.s, r.s, endpoints[x], endpoints[y]);
          }
        }
      }
    }
  }

  lemma GrownKeys(s: State, s': State)
    requires StateGrown(s, s')
    ensures s'.rings.Keys == s.rings.Keys
  {
  }

  lemma Listed(endpoints: seq<string>, keys: set<string>)
    requires Enumerates(endpoints, keys)
    ensures Differ(endpoints) && forall e <- endpoints :: e in keys
  {
  }

  /** A whole cycle on an orderly engine: unless it reaches its limit of 100 joins, every
      record that has a time and less than four partners got one more, or no record
      related to it at a later endpoint, with less than four partners, is left. */
  lemma NothingRelatedIsLeft(s: State, endpoints: seq<string>, order: seq<nat>, now: int)
    requires Orderly(s) && Enumerates(endpoints, s.rings.Keys)
    ensures var aged := Aged(s, endpoints, order, now).0; var r := Cycle(TwoPointer, s, endpoints, order, now);
            && StateGrown(aged, r.s)
            && (r.joins < 100 ==> PairsSettled(aged, r.s, endpoints, 0, 1))
  {
    hide Aged, ScanFrom, Enumerates, StateGrown, PairsSettled, Orderly;
    Listed(endpoints, s.rings.Keys);
    AgedRings(s, endpoints, order, now);
    CycleIsNaive(s, endpoints, order, now);
    var aged := Aged(s, endpoints, order, now);
    PairsSettle(Progress(aged.0, 0, aged.1), endpoints, 0, 1, now);
  }

  /** The same over every run whose times are in order, none before the epoch, and whose sessions fit the prefilter. */
  lemma NothingRelatedIsLeftInRuns(events: seq<Event>, w: World, endpoints: seq<string>, order: seq<nat>, now: int)
    requires Played(events, w) && InputOrdered(events) && InputFits(events) && Enumerates(endpoints, w.s.rings.Keys)
    ensures var aged := Aged(w.s, endpoints, order, now).0; var r := Cycle(TwoPointer, w.s, endpoints, order, now);
            && StateGrown(aged, r.s)
            && (r.joins < 100 ==> PairsSettled(aged, r.s, endpoints, 0, 1))
  {
    hide Played, InputOrdered, InputFits, AllFed, Cycle, Enumerates, ShortSession, TimeOrdered, Aged, StateGrown,
         PairsSettled;
    EveryRingIsOrdered(events, w);
    EveryRecordWasFed(events, w);
    forall e <- w.s.rings ensures OrderlyRing(w.s.rings[e], e) {
      FitsRing(events, w.s, e);
      assert RingOrdered(w.s.rings[e], e);
    }
    NothingRelatedIsLeft(w.s, endpoints, order, now);
  }

  // ---------------------------------------------------------------- which records a cycle sees

  /** Ageing a ring in order whose records all carry times leaves exactly those of the last thirty minutes. */
  lemma {:induction false} AgedExactly(ring: seq<RingRecord>, now: int)
    requires TimeOrdered(ring) && forall x <- ring :: x.record.time != 0
    ensures forall x :: x in PruneRing(ring, now) <==> x in ring && now - x.record.time <= 1_800_000
  {
    if ring != [] {
      var rest := ring[1..];
      assert ring == [ring[0]] + rest;
      if TooOld(ring[0], now) {
        AgedExactly(rest, now);
      } else {
        forall x <- ring ensures now - x.record.time <= 1_800_000 {
          var i :| 0 <= i < |ring| && ring[i] == x;
          assert ring[0] in ring && ring[0].record.time <= x.record.time;
        }
      }
    }
  }

  // ---------------------------------------------------------------- partners end in one group

  /** A partnership of the two that is not an earlier one of `x0` has put them in one group. */
  predicate Shares(x0: RingRecord, x: RingRecord, y: RingRecord) {
    y.id in x.partners && y.id !in x0.partners ==> x.group == y.group && x.group != 0
  }

  predicate AllShare(xs0: seq<RingRecord>, xs: seq<RingRecord>, ys: seq<RingRecord>) {
    |xs0| == |xs| && forall n, k :: 0 <= n < |xs| && 0 <= k < |ys| ==> Shares(xs0[n], xs[n], ys[k])
  }

  predicate IdsDiffer(ring: seq<RingRecord>) {
    forall i, j :: 0 <= i < j < |ring| ==> ring[i].id != ring[j].id
  }

  /** Every partner gained is one of `ys`. */
  predicate GainedFrom(xs0: seq<RingRecord>, xs: seq<RingRecord>, ys: seq<RingRecord>) {
    |xs0| == |xs| && forall n :: 0 <= n < |xs| ==>
      forall id <- xs[n].partners :: id in xs0[n].partners || exists k :: 0 <= k < |ys| && ys[k].id == id
  }

  /** What is shared stays shared. */
  lemma ShareStays(x0: RingRecord, x1: RingRecord, x: RingRecord, y1: RingRecord, y: RingRecord)
    requires Shares(x0, x1, y1) && Shares(x1, x, y) && Grown(x1, x) && Grown(y1, y)
    ensures Shares(x0, x, y)
  {
  }

  lemma AllShareTwice(xs0: seq<RingRecord>, xs1: seq<RingRecord>, xs: seq<RingRecord>, ys1: seq<RingRecord>,
                      ys: seq<RingRecord>)
    requires AllShare(xs0, xs1, ys1) && AllShare(xs1, xs, ys) && RingGrown(xs1, xs) && RingGrown(ys1, ys)
    ensures AllShare(xs0, xs, ys)
  {
    hide Shares, Grown;
    forall n, k | 0 <= n < |xs| && 0 <= k < |ys| ensures Shares(xs0[n], xs[n], ys[k]) {
      assert Shares(xs0[n], xs1[n], ys1[k]) && Shares(xs1[n], xs[n], ys[k]);
      ShareStays(xs0[n], xs1[n], xs[n], ys1[k], ys[k]);
    }
  }

  lemma GainedTwice(xs0: seq<RingRecord>, xs1: seq<RingRecord>, xs: seq<RingRecord>, ys1: seq<RingRecord>,
                    ys: seq<RingRecord>)
    requires GainedFrom(xs0, xs1, ys) && GainedFrom(xs1, xs, ys1) && RingGrown(ys, ys1)
    ensures GainedFrom(xs0, xs, ys)
  {
    forall n, id | 0 <= n < |xs| && id in xs[n].partners
      ensures id in xs0[n].partners || exists k :: 0 <= k < |ys| && ys[k].id == id
    {
      if id !in xs1[n].partners {
        var k :| 0 <= k < |ys1| && ys1[k].id == id;
        assert Grown(ys[k], ys1[k]);
      }
    }
  }

  lemma SameIds(ring: seq<RingRecord>, ring': seq<RingRecord>)
    requires IdsDiffer(ring) && RingGrown(ring, ring')
    ensures IdsDiffer(ring')
  {
    forall i, j | 0 <= i < j < |ring'| ensures ring'[i].id != ring'[j].id {
      assert Grown(ring[i], ring'[i]) && Grown(ring[j], ring'[j]);
    }
  }

  /** One join, on its own. */
  lemma JoinShares(p: Scan, i: nat, k: nat, now: int)
    requires i < |p.a| && k < |p.b| && IdsDiffer(p.a) && IdsDiffer(p.b) && p.book.nextGroup != 0
    requires Total(JoinAt(p, i, k, now).book.declines) == Total(p.book.declines)
    ensures var r := JoinAt(p, i, k, now); AllShare(p.a, r.a, r.b) && AllShare(p.b, r.b, r.a)
  {
    hide JoinAt;
    JoinGrows(p, i, k, now);
    var r := JoinAt(p, i, k, now);
    forall n, m | 0 <= n < |r.a| && 0 <= m < |r.b|
      ensures Shares(p.a[n], r.a[n], r.b[m]) && Shares(p.b[m], r.b[m], r.a[n]) {
      if n == i && m != k { assert r.b[m].id != p.b[k].id; }
      if n != i && m == k { assert r.a[n].id != p.a[i].id; }
    }
  }

  lemma JoinGains(p: Scan, i: nat, k: nat, now: int)
    requires i < |p.a| && k < |p.b|
    ensures var r := JoinAt(p, i, k, now); GainedFrom(p.a, r.a, p.b) && GainedFrom(p.b, r.b, p.a)
  {
    hide JoinAt;
    JoinGrows(p, i, k, now);
  }

  lemma NothingGained(xs: seq<RingRecord>, ys: seq<RingRecord>)
    ensures AllShare(xs, xs, ys) && GainedFrom(xs, xs, ys)
  {
  }

  /** The naive scan: partners gained are of the other ring, and if no link is refused they share a group. */
  lemma {:induction false} NaiveShares(p: Scan, i: nat, now: int)
    requires IdsDiffer(p.a) && IdsDiffer(p.b) && p.book.nextGroup != 0
    ensures var r := NaiveScan(p, i, now);
            && RingGrown(p.a, r.a) && RingGrown(p.b, r.b) && r.book.nextGroup != 0
            && Total(p.book.declines) <= Total(r.book.declines)
            && GainedFrom(p.a, r.a, p.b) && GainedFrom(p.b, r.b, p.a)
            && (Total(p.book.declines) == Total(r.book.declines) ==> AllShare(p.a, r.a, r.b) && AllShare(p.b, r.b, r.a))
    decreases |p.a| - i
  {
    hide JoinAt, FirstJoinable, Grown, AllShare, GainedFrom, IdsDiffer;
    GrownRefl();
    NothingGained(p.a, p.b);
    NothingGained(p.b, p.a);
    if i < |p.a| && p.joins < MAX_JOINS_PER_CYCLE {
      if !Scannable(p.a[i]) || FirstJoinable(p.a[i], p.b, 0) >= |p.b| {
        NaiveShares(p, i + 1, now);
      } else {
        var k := FirstJoinable(p.a[i], p.b, 0);
        JoinGrows(p, i, k, now);
        JoinGains(p, i, k, now);
        var p1 := JoinAt(p, i, k, now);
        UpdatedGrown(p.a, i, p1.a[i]);
        UpdatedGrown(p.b, k, p1.b[k]);
        SameIds(p.a, p1.a);
        SameIds(p.b, p1.b);
        NaiveShares(p1, i + 1, now);
        var r := NaiveScan(p1, i + 1, now);
        GrownTwice(p.a, p1.a, r.a);
        GrownTwice(p.b, p1.b, r.b);
        GainedTwice(p.a, p1.a, r.a, p1.b, p.b);
        GainedTwice(p.b, p1.b, r.b, p1.a, p.a);
        if Total(p.book.declines) == Total(r.book.declines) {
          JoinShares(p, i, k, now);
          AllShareTwice(p.a, p1.a, r.a, p1.b, r.b);
          AllShareTwice(p.b, p1.b, r.b, p1.a, r.a);
        }
      }
    }
  }

  // ---------------------------------------------------------------- partners over a whole cycle

  /** No id stands twice, in one ring or in two. */
  predicate IdsApart(s: State) {
    && (forall e <- s.rings :: IdsDiffer(s.rings[e]))
    && forall e <- s.rings, f <- s.rings :: e != f ==> Apart(s.rings[e], s.rings[f])
  }

  /** Every partnership of the cycle has put its two records in one group. */
  predicate StateShares(s: State, s': State) {
    forall e <- s.rings, f <- s.rings :: e != f && e in s'.rings && f in s'.rings ==>
      AllShare(s.rings[e], s'.rings[e], s'.rings[f])
  }

  lemma ApartStays(s: State, s': State)
    requires IdsApart(s) && StateGrown(s, s')
    ensures IdsApart(s')
  {
    hide IdsDiffer, RingGrown, Apart;
    forall e <- s'.rings ensures IdsDiffer(s'.rings[e]) { SameIds(s.rings[e], s'.rings[e]); }
    forall e <- s'.rings, f <- s'.rings | e != f ensures Apart(s'.rings[e], s'.rings[f]) {
      GrownApart(s.rings[e], s'.rings[e], s.rings[f], s'.rings[f]);
    }
  }

  lemma GrownApart(xs: seq<RingRecord>, xs': seq<RingRecord>, ys: seq<RingRecord>, ys': seq<RingRecord>)
    requires Apart(xs, ys) && RingGrown(xs, xs') && RingGrown(ys, ys')
    ensures Apart(xs', ys')
  {
    forall x <- xs', y <- ys' ensures x.id != y.id {
      var i :| 0 <= i < |xs'| && xs'[i] == x;
      var k :| 0 <= k < |ys'| && ys'[k] == y;
      assert Grown(xs[i], xs'[i]) && Grown(ys[k], ys'[k]) && xs[i] in xs && ys[k] in ys;
    }
  }

  /** Partners gained from one ring are in no other. */
  lemma GainedElsewhere(xs0: seq<RingRecord>, xs: seq<RingRecord>, ys: seq<RingRecord>, zs: seq<RingRecord>)
    requires GainedFrom(xs0, xs, ys) && Apart(ys, zs)
    ensures AllShare(xs0, xs, zs)
  {
    forall n, k | 0 <= n < |xs| && 0 <= k < |zs| ensures Shares(xs0[n], xs[n], zs[k]) {
      assert zs[k] in zs && forall m :: 0 <= m < |ys| ==> ys[m] in ys;
    }
  }

  lemma PairShares(c: Progress, e: string, f: string, now: int)
    requires e in c.s.rings && f in c.s.rings && e != f && IdsApart(c.s) && c.s.book.nextGroup != 0
    ensures var r := ScanPair(Naive, c, e, f, now);
            && StateGrown(c.s, r.s) && IdsApart(r.s) && r.s.book.nextGroup != 0
            && Total(c.s.book.declines) <= Total(r.s.book.declines)
            && (Total(c.s.book.declines) == Total(r.s.book.declines) ==> StateShares(c.s, r.s))
  {
    hide NaiveScan, RingGrown, AllShare, GainedFrom, IdsDiffer, Apart;
    var p := ScanOf(c, e, f);
    NaiveShares(p, 0, now);
    var r := ScanPair(Naive, c, e, f, now);
    forall g <- c.s.rings ensures RingGrown(c.s.rings[g], r.s.rings[g]) { GrownItself(c.s.rings[g]); }
    ApartStays(c.s, r.s);
    if Total(c.s.book.declines) == Total(r.s.book.declines) {
      forall g <- c.s.rings, h <- c.s.rings | g != h ensures AllShare(c.s.rings[g], r.s.rings[g], r.s.rings[h]) {
        if g == e && h != f {
          GainedElsewhere(c.s.rings[e], r.s.rings[e], c.s.rings[f], r.s.rings[h]);
        } else if g == f && h != e {
          GainedElsewhere(c.s.rings[f], r.s.rings[f], c.s.rings[e], r.s.rings[h]);
        } else if g != e && g != f {
          NothingGained(c.s.rings[g], r.s.rings[h]);
        }
      }
    }
  }

  lemma SharesTwice(s: State, s1: State, s': State)
    requires StateGrown(s, s1) && StateGrown(s1, s') && StateShares(s, s1) && StateShares(s1, s')
    ensures StateShares(s, s')
  {
    hide AllShare, RingGrown;
    forall e <- s.rings, f <- s.rings | e != f ensures AllShare(s.rings[e], s'.rings[e], s'.rings[f]) {
      AllShareTwice(s.rings[e], s1.rings[e], s'.rings[e], s1.rings[f], s'.rings[f]);
    }
  }

  lemma NothingShared(s: State)
    ensures StateShares(s, s)
  {
    hide AllShare;
    forall e <- s.rings, f <- s.rings ensures AllShare(s.rings[e], s.rings[e], s.rings[f]) {
      NothingGained(s.rings[e], s.rings[f]);
    }
  }

  lemma {:induction false} PairsShare(c: Progress, endpoints: seq<string>, i: nat, j: nat, now: int)
    requires i < j && Differ(endpoints) && (forall e <- endpoints :: e in c.s.rings)
    requires IdsApart(c.s) && c.s.book.nextGroup != 0
    ensures var r := ScanFrom(Naive, c, endpoints, i, j, now);
            && StateGrown(c.s, r.s) && Total(c.s.book.declines) <= Total(r.s.book.declines)
            && (Total(c.s.book.declines) == Total(r.s.book.declines) ==> StateShares(c.s, r.s))
    decreases |endpoints| - i, |endpoints| - j
  {
    hide ScanPair, StateGrown, StateShares, IdsApart;
    if i >= |endpoints| || c.joins >= MAX_JOINS_PER_CYCLE {
      StateGrownItself(c.s);
      NothingShared(c.s);
    } else if j >= |endpoints| {
      PairsShare(c, endpoints, i + 1, i + 2, now);
    } else {
      var e, f := endpoints[i], endpoints[j];
      assert e in endpoints && f in endpoints;
      PairShares(c, e, f, now);
      var c1 := ScanPair(Naive, c, e, f, now);
      GrownKeys(c.s, c1.s);
      PairsShare(c1, endpoints, i, j + 1, now);
      var r := ScanFrom(Naive, c1, endpoints, i, j + 1, now);
      StateGrownTwice(c.s, c1.s, r.s);
      if Total(c.s.book.declines) == Total(r.s.book.declines) { SharesTwice(c.s, c1.s, r.s); }
    }
  }

  lemma SoundIsApart(s: State, log: seq<Revision>, now: int)
    requires EngineOk(s, log, now)
    ensures IdsApart(s) && s.book.nextGroup != 0
  {
    hide AllOk, TimeOrdered, KnownIds, OneGroupEach, AllChainsOk;
    forall e <- s.rings ensures IdsDiffer(s.rings[e]) {
      assert RingOk(s.rings[e], e, s.book, now, s.nextRecord);
      FiledDiffer(s.rings[e], e, now, s.nextRecord);
    }
  }

  lemma FiledDiffer(ring: seq<RingRecord>, e: string, now: int, nextRecord: nat)
    requires Filed(ring, e, now, nextRecord)
    ensures IdsDiffer(ring)
  {
  }

  // ---------------------------------------------------------------- the last cycle of any run

  /** A run of timed inputs in order that ends with a cycle: the cycle leaves nothing
      related behind, unless it reaches its limit of 100 joins; and unless it refused
      a link, every two records that became partners in it sit in one live group. */
  lemma RelatedEndTogether(events: seq<Event>, before: World, endpoints: seq<string>, order: seq<nat>, now: int)
    requires Played(events, before) && Iterates(before, Correlate(now, endpoints, order))
    requires var all := events + [Correlate(now, endpoints, order)];
             InputOrdered(all) && AllTimed(all) && InputFits(all)
    ensures var aged := Aged(before.s, endpoints, order, now).0;
            var r := Cycle(TwoPointer, before.s, endpoints, order, now);
            && (r.joins < 100 ==> PairsSettled(aged, r.s, endpoints, 0, 1))
            && (Total(r.s.book.declines) == Total(aged.book.declines) ==> StateShares(aged, r.s))
            && forall e <- r.s.rings, x <- r.s.rings[e] :: x.group != 0 ==> x.group in r.s.book.chains
  {
    hide Played, InputOrdered, InputFits, AllTimed, Cycle, Aged, StateGrown, PairsSettled, StateShares, Admissible,
         EngineOk, Next, IdsApart;
    var event := Correlate(now, endpoints, order);
    var all := events + [event];
    assert all[..|events|] == events && all[|events|] == event;
    FrontOfInputs(events, event);
    NothingRelatedIsLeftInRuns(events, before, endpoints, order, now);
    AgedIsSound(events, before, endpoints, order, now);
    var aged := Aged(before.s, endpoints, order, now);
    SoundIsApart(aged.0, before.log + aged.1, now);
    NaiveInRuns(events, before, endpoints, order, now);
    AgedRings(before.s, endpoints, order, now);
    Listed(endpoints, before.s.rings.Keys);
    CycleSteps(before.s, endpoints, order, now);
    PairsShare(Progress(aged.0, 0, aged.1), endpoints, 0, 1, now);
    var w := Next(before, event);
    PlayedOneMore(events, before, event);
    TimedInputIsAdmissible(all, w);
    EveryRunIsSound(all, w);
    NextIsCycle(before, event);
    forall e <- w.s.rings, x <- w.s.rings[e] | x.group != 0 ensures x.group in w.s.book.chains { LiveOrNone(w, e, x); }
  }

  lemma NextIsCycle(w: World, event: Event)
    requires event.Correlate?
    ensures Next(w, event).s == Cycle(TwoPointer, w.s, event.endpoints, event.order, event.now).s
  {
    hide Cycle;
  }

  lemma CycleSteps(s: State, endpoints: seq<string>, order: seq<nat>, now: int)
    ensures var aged := Aged(s, endpoints, order, now);
            Cycle(Naive, s, endpoints, order, now)
            == ScanFrom(Naive, Progress(aged.0, 0, aged.1), endpoints, 0, 1, now)
  {
    hide Aged, ScanFrom;
  }

  lemma FrontOfInputs(events: seq<Event>, event: Event)
    requires var all := events + [event]; InputOrdered(all) && AllTimed(all) && InputFits(all)
    ensures InputOrdered(events) && AllTimed(events) && InputFits(events)
  {
    hide Timed, Fits;
    var all := events + [event];
    assert all[..|all| - 1] == events;
    OrderedFront(all);
    TimedFront(all);
    assert forall i :: 0 <= i < |events| ==> events[i] == all[i];
  }

  lemma NaiveInRuns(events: seq<Event>, w: World, endpoints: seq<string>, order: seq<nat>, now: int)
    requires Played(events, w) && InputOrdered(events) && InputFits(events) && Enumerates(endpoints, w.s.rings.Keys)
    ensures Cycle(TwoPointer, w.s, endpoints, order, now) == Cycle(Naive, w.s, endpoints, order, now)
  {
    hide Played, InputOrdered, InputFits, Cycle, Enumerates;
    EveryCycleIsNaive(events, w, endpoints, order, now);
  }

  lemma PlayedOneMore(events: seq<Event>, before: World, event: Event)
    requires Played(events, before) && Iterates(before, event)
    ensures Played(events + [event], Next(before, event))
  {
    hide Iterates, Next;
    assert (events + [event])[..|events|] == events;
  }

  lemma AgedIsSound(events: seq<Event>, before: World, endpoints: seq<string>, order: seq<nat>, now: int)
    requires Played(events, before) && Iterates(before, Correlate(now, endpoints, order))
    requires var all := events + [Correlate(now, endpoints, order)];
             InputOrdered(all) && AllTimed(all) && InputFits(all)
    ensures var aged := Aged(before.s, endpoints, order, now); EngineOk(aged.0, before.log + aged.1, now)
  {
    hide Played, InputOrdered, InputFits, AllTimed, Aged, EngineOk, Enumerates, NothingHeldBack, AllFed;
    var event := Correlate(now, endpoints, order);
    var all := events + [event];
    assert all[..|events|] == events && all[|events|] == event;
    FrontOfInputs(events, event);
    TimedInputIsAdmissible(events, before);
    EveryRunIsSound(events, before);
    EveryRecordWasFed(events, before);
    TimedRings(events, before.s);
    TimesAreEnough(before.s, now);
    if events == [] {
      EmptyEngineOk(now);
      assert before.s == EMPTY_ENGINE && before.log == [] by { StartOfRun(before); }
    } else {
      ClockMoves(all);
      Later(before.s, before.log, before.clock, now);
    }
    AgedKeeps(before.s, before.log, endpoints, order, now);
  }

  lemma StartOfRun(w: World)
    requires Played([], w)
    ensures w.s == EMPTY_ENGINE && w.log == []
  {
  }

  // ---------------------------------------------------------------- two records on their own

  /** All other rings are empty. */
  predicate OnlyTwo(s: State, e: string, f: string) {
    e in s.rings && f in s.rings && forall g <- s.rings :: g != e && g != f ==> s.rings[g] == []
  }

  lemma QuietPair(c: Progress, e: string, f: string, now: int)
    requires e in c.s.rings && f in c.s.rings && e != f && (c.s.rings[e] == [] || c.s.rings[f] == [])
    ensures ScanPair(TwoPointer, c, e, f, now) == c
  {
    hide Prefilter;
    var p := ScanOf(c, e, f);
    if p.b == [] { NobodyThere(p, 0, 0, Prefilter(e, f), now); }
    assert c.s.rings[e := p.a][f := p.b] == c.s.rings;
  }

  lemma {:induction false} NobodyThere(p: Scan, i: nat, j: nat, w: int, now: int)
    requires p.b == []
    ensures TwoPointerScan(p, i, j, w, now) == p
    decreases |p.a| - i
  {
    hide Scannable;
    if i < |p.a| && p.joins < MAX_JOINS_PER_CYCLE {
      if Scannable(p.a[i]) {
        var j' := Slide(p.b, j, p.a[i].record.time - w);
        assert FirstInWindow(p.a[i], p.b, j', p.a[i].record.time + w) == 0;
        NobodyThere(p, i + 1, j', w, now);
      } else {
        NobodyThere(p, i + 1, j, w, now);
      }
    }
  }

  /** The pairs behind (x, y), and those from (i, j) up to it, change nothing. */
  lemma {:induction false} QuietAfter(c: Progress, endpoints: seq<string>, i: nat, j: nat, x: nat, y: nat, now: int)
    requires i < j && x < y < |endpoints| && (i > x || (i == x && j > y))
    requires Differ(endpoints) && (forall e <- endpoints :: e in c.s.rings) && OnlyTwo(c.s, endpoints[x], endpoints[y])
    ensures ScanFrom(TwoPointer, c, endpoints, i, j, now) == c
    decreases |endpoints| - i, |endpoints| - j
  {
    hide ScanPair;
    if i < |endpoints| && c.joins < MAX_JOINS_PER_CYCLE {
      if j >= |endpoints| {
        QuietAfter(c, endpoints, i + 1, i + 2, x, y, now);
      } else {
        assert endpoints[i] in endpoints && endpoints[j] in endpoints;
        QuietPair(c, endpoints[i], endpoints[j], now);
        QuietAfter(c, endpoints, i, j + 1, x, y, now);
      }
    }
  }

  lemma {:induction false} QuietBefore(c: Progress, endpoints: seq<string>, i: nat, j: nat, x: nat, y: nat, now: int)
    requires i < j && x < y < |endpoints| && (i < x || (i == x && j <= y)) && c.joins < MAX_JOINS_PER_CYCLE
    requires Differ(endpoints) && (forall e <- endpoints :: e in c.s.rings) && OnlyTwo(c.s, endpoints[x], endpoints[y])
    ensures ScanFrom(TwoPointer, c, endpoints, i, j, now) == ScanFrom(TwoPointer, c, endpoints, x, y, now)
    decreases |endpoints| - i, |endpoints| - j
  {
    hide ScanPair;
    if i != x || j != y {
      if j >= |endpoints| {
        QuietBefore(c, endpoints, i + 1, i + 2, x, y, now);
      } else {
        assert endpoints[i] in endpoints && endpoints[j] in endpoints;
        QuietPair(c, endpoints[i], endpoints[j], now);
        QuietBefore(c, endpoints, i, j + 1, x, y, now);
      }
    }
  }

  /** A record that has not been linked yet and is at most thirty minutes old. */
  predicate Unlinked(a: RingRecord, now: int) { a.group == 0 && a.partners == [] && now - a.record.time <= 1_800_000 }

  /** The scan of two rings of one record each. */
  lemma TwoAreJoined(p: Scan, w: int, now: int)
    requires |p.a| == |p.b| == 1 && p.joins < 100 && Unlinked(p.a[0], now) && Unlinked(p.b[0], now)
    requires Related(p.a[0].record, p.b[0].record, 2000)
    requires p.a[0].record.time - w <= p.b[0].record.time <= p.a[0].record.time + w
    ensures TwoPointerScan(p, 0, 0, w, now) == JoinAt(p, 0, 0, now)
  {
    hide Related, EdgeOf, JoinAt;
    var a, b := p.a[0], p.b[0];
    MatchesExactly(a.record, b.record, 2000);
    RelatedTimes(a.record, b.record);
    assert EdgeOf(a, b).matched by { EdgeIsEvaluated(a, b); }
    assert Slide(p.b, 0, a.record.time - w) == 0;
    assert FirstInWindow(a, p.b, 0, a.record.time + w) == 0;
  }

  lemma EdgeIsEvaluated(a: RingRecord, b: RingRecord)
    ensures EdgeOf(a, b) == EvaluateEdge(a.record, b.record, 2000)
  {
  }

  lemma RelatedTimes(a: Record, b: Record)
    requires Related(a, b, 2000)
    ensures a.time != 0 && b.time != 0
  {
  }

  /** The two ids, and no others, are in the group. */
  predicate GroupOfTwo(book: Book, g: nat, a: RingRecord, b: RingRecord) {
    && g != 0 && g in book.chains && |book.chains[g].members| == 2
    && book.chains[g].members[0].id == a.id && book.chains[g].members[1].id == b.id
    && book.chains[g].members[0].record == a.record && book.chains[g].members[1].record == b.record
  }

  /** Two unlinked records join: they open a group of their own, unless 500 groups are live; then neither gets one. */
  lemma TwoOpenAGroup(p: Scan, now: int)
    requires |p.a| == |p.b| == 1 && Unlinked(p.a[0], now) && Unlinked(p.b[0], now) && p.book.nextGroup != 0
    ensures var r := JoinAt(p, 0, 0, now);
            if |p.book.chains| < 500 then
              GroupOfTwo(r.book, r.a[0].group, p.a[0], p.b[0]) && r.b[0].group == r.a[0].group
            else r.a[0].group == r.b[0].group == 0 && r.book.chains == p.book.chains
    ensures var r := JoinAt(p, 0, 0, now); Grown(p.a[0], r.a[0]) && Grown(p.b[0], r.b[0])
  {
    hide EdgeOf;
  }

  /** Two unlinked, related records of two endpoints, with nothing else in the rings and within the prefilter: the cycle
      puts them into a live group of their own, unless 500 groups are live, in which case they stay without one. */
  lemma TwoEndTogether(s: State, endpoints: seq<string>, order: seq<nat>, now: int, x: nat, y: nat, a: RingRecord,
                       b: RingRecord)
    requires Enumerates(endpoints, s.rings.Keys) && x < y < |endpoints| && OnlyTwo(s, endpoints[x], endpoints[y])
    requires s.rings[endpoints[x]] == [a] && s.rings[endpoints[y]] == [b] && s.book.nextGroup != 0
    requires Unlinked(a, now) && Unlinked(b, now) && Related(a.record, b.record, 2000)
    requires var w := if "port" in [endpoints[x], endpoints[y]] then 21_600_000 else 2000;
             a.record.time - w <= b.record.time <= a.record.time + w
    ensures var r := Cycle(TwoPointer, s, endpoints, order, now).s;
            var live := Aged(s, endpoints, order, now).0.book.chains;
            && endpoints[x] in r.rings && endpoints[y] in r.rings
            && |r.rings[endpoints[x]]| == |r.rings[endpoints[y]]| == 1
            && var a', b' := r.rings[endpoints[x]][0], r.rings[endpoints[y]][0];
               && Grown(a, a') && Grown(b, b')
               && if |live| < 500 then GroupOfTwo(r.book, a'.group, a, b) && b'.group == a'.group
                  else a'.group == b'.group == 0
  {
    hide Aged, ScanFrom, Enumerates, TwoPointerScan, JoinAt, Related, GroupOfTwo, Unlinked;
    var e, f := endpoints[x], endpoints[y];
    Listed(endpoints, s.rings.Keys);
    AgedTwo(s, endpoints, order, now, x, y, a, b);
    var aged := Aged(s, endpoints, order, now);
    var c := Progress(aged.0, 0, aged.1);
    QuietBefore(c, endpoints, 0, 1, x, y, now);
    var p, w := ScanOf(c, e, f), Prefilter(e, f);
    TwoAreJoined(p, w, now);
    TwoOpenAGroup(p, now);
    var c1 := ScanPair(TwoPointer, c, e, f, now);
    assert Scanned(TwoPointer, p, w, now) == JoinAt(p, 0, 0, now);
    assert ScanFrom(TwoPointer, c, endpoints, x, y, now) == ScanFrom(TwoPointer, c1, endpoints, x, y + 1, now)
      by { OneStepOfScan(c, endpoints, x, y, now); }
    assert OnlyTwo(c1.s, e, f);
    QuietAfter(c1, endpoints, x, y + 1, x, y, now);
  }

  lemma OneStepOfScan(c: Progress, endpoints: seq<string>, x: nat, y: nat, now: int)
    requires x < y < |endpoints| && c.joins < 100
    ensures ScanFrom(TwoPointer, c, endpoints, x, y, now)
         == ScanFrom(TwoPointer, ScanPair(TwoPointer, c, endpoints[x], endpoints[y], now), endpoints, x, y + 1, now)
  {
    hide ScanPair;
  }

  lemma AgedTwo(s: State, endpoints: seq<string>, order: seq<nat>, now: int, x: nat, y: nat, a: RingRecord,
                b: RingRecord)
    requires Enumerates(endpoints, s.rings.Keys) && x < y < |endpoints| && OnlyTwo(s, endpoints[x], endpoints[y])
    requires s.rings[endpoints[x]] == [a] && s.rings[endpoints[y]] == [b] && Unlinked(a, now) && Unlinked(b, now)
    ensures var aged := Aged(s, endpoints, order, now).0;
            && aged.rings == s.rings && aged.book.nextGroup == s.book.nextGroup
  {
    hide ExpireFrom, Enumerates, PruneFrom;
    EnumeratedKeys(endpoints, s.rings.Keys);
    PruneAll(s, endpoints, now);
    var pruned := PruneFrom(s, endpoints, 0, now);
    ExpireKeepsRings(pruned, [], order, 0, now);
    ExpireKeepsIds(pruned, [], order, 0, now);
    forall g <- s.rings ensures PruneRing(s.rings[g], now) == s.rings[g] { }
    assert pruned.rings == s.rings;
  }

  lemma {:induction false} ExpireKeepsIds(s: State, out: seq<Revision>, order: seq<nat>, k: nat, now: int)
    ensures ExpireFrom(s, out, order, k, now).0.book.nextGroup == s.book.nextGroup
    decreases |order| - k
  {
    if k < |order| {
      if order[k] in s.book.chains && Expired(s.book.chains[order[k]], now) {
        ExpireKeepsIds(s.(book := s.book.(chains := s.book.chains - {order[k]}), expired := s.expired + 1),
                       out + [Closing(order[k], s.book.chains[order[k]])], order, k + 1, now);
      } else {
        ExpireKeepsIds(s, out, order, k + 1, now);
      }
    }
  }
}
