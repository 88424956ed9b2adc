/** The two-pointer scan with its prefilter chooses what the naive scan of the whole other ring chooses. */
module CorrelationScan {
  import opened Evidence
  import opened CorrelationSpec

  // ---------------------------------------------------------------- when the prefilter is sound

  /** Usable times never decrease along a ring. */
  predicate TimeOrdered(ring: seq<RingRecord>) {
    forall i, j :: 0 <= i < j < |ring| && ring[i].record.time != 0 && ring[j].record.time != 0
      ==> ring[i].record.time <= ring[j].record.time
  }

  /** Matching records are never further apart than the prefilter. */
  predicate Admits(a: Record, b: Record, w: int) {
    EvaluateEdge(a, b, JOIN_WINDOW_MS).matched ==> Abs(a.time - b.time) <= w
  }

  /** What a caller can check of one record: a port session, with its slack, fits the six-hour prefilter. */
  predicate ShortSession(x: Record) {
    x.endpoint == "port" && x.mountPoint != "" ==> x.durationSeconds * 1000 + USB_SLACK_MS <= PORT_PREFILTER_MS
  }

  lemma ShortSessionsAreAdmitted(a: Record, b: Record)
    requires ShortSession(a) && ShortSession(b)
    ensures Admits(a, b, Prefilter(a.endpoint, b.endpoint))
  {
    if EvaluateEdge(a, b, JOIN_WINDOW_MS).matched { EdgeWindow(a, b, JOIN_WINDOW_MS); }
  }

  /** The other side of the session at which the bridge still matches but the prefilter does not look. */
  function BeyondPrefilter(port: Record): Record {
    var edge := SessionStart(port) - USB_SLACK_MS;
    Record("process", "", "", "", 0, if edge != 0 then edge else 1, 0, 0, "", "", "", "", -1, "")
  }

  /** For a usable session record the prefilter loses nothing if and only if the session is short. */
  lemma PrefilterExact(port: Record)
    requires port.endpoint == "port" && port.mountPoint != "" && port.time != 0
    ensures ShortSession(port) <==> forall other: Record :: other.endpoint != "port" ==>
            Admits(port, other, PORT_PREFILTER_MS)
  {
    if ShortSession(port) {
      forall other: Record | other.endpoint != "port" ensures Admits(port, other, PORT_PREFILTER_MS) {
        if EvaluateEdge(port, other, JOIN_WINDOW_MS).matched { EdgeWindow(port, other, JOIN_WINDOW_MS); }
      }
    } else {
      var other := BeyondPrefilter(port);
      assert other.endpoint != "port" by { assert "process"[1] != "port"[1]; }
      LongSessionIsMissed(port, other.time);
    }
  }

  lemma LongSessionIsMissed(port: Record, time: int)
    requires port.endpoint == "port" && port.mountPoint != "" && port.time != 0 && !ShortSession(port)
    requires time == BeyondPrefilter(port).time
    ensures InSession(port, time) && Abs(port.time - time) > PORT_PREFILTER_MS
    ensures !Admits(port, BeyondPrefilter(port), PORT_PREFILTER_MS)
  {
    assert BeyondPrefilter(port).endpoint != "port" by { assert "process"[1] != "port"[1]; }
  }

  // ---------------------------------------------------------------- one record's choice

  lemma {:induction false} FirstJoinableFinds(a: RingRecord, ring: seq<RingRecord>, k: nat)
    ensures var r := FirstJoinable(a, ring, k);
            && r <= |ring| && (r < |ring| ==> k <= r && Joinable(a, ring[r]))
            && forall i :: k <= i < r ==> !Joinable(a, ring[i])
    decreases |ring| - k
  {
    hide Joinable;
    if k < |ring| && !Joinable(a, ring[k]) { FirstJoinableFinds(a, ring, k + 1); }
  }

  lemma {:induction false} SlideSkips(ring: seq<RingRecord>, j: nat, low: int)
    ensures var r := Slide(ring, j, low);
            && (j <= |ring| ==> r <= |ring|) && (r < |ring| ==> !Behind(ring[r], low))
            && forall i :: j <= i < r && i < |ring| ==> Behind(ring[i], low)
    decreases |ring| - j
  {
    if j < |ring| && Behind(ring[j], low) { SlideSkips(ring, j + 1, low); }
  }

  /** Where the window ends without a choice, the ring ends or a record is too late. */
  lemma {:induction false} WindowFinds(a: RingRecord, ring: seq<RingRecord>, k: nat, high: int) returns (stop: nat)
    ensures k <= stop
    ensures var r := FirstInWindow(a, ring, k, high);
            && r <= |ring|
            && (r < |ring| ==> r == stop && Joinable(a, ring[r]))
            && (r == |ring| ==> stop >= |ring| || ring[stop].record.time > high)
    ensures forall i :: k <= i < stop && i < |ring| ==> !Joinable(a, ring[i])
    decreases |ring| - k
  {
    hide Joinable;
    stop := k;
    if k < |ring| && ring[k].record.time <= high && !Joinable(a, ring[k]) { stop := WindowFinds(a, ring, k + 1, high); }
  }

  lemma TooEarlyOrLate(a: RingRecord, b: RingRecord, w: int)
    requires Admits(a.record, b.record, w)
    requires Behind(b, a.record.time - w) || b.record.time > a.record.time + w
    ensures !Joinable(a, b)
  {
    if EdgeOf(a, b).matched { MatchedEdge(a.record, b.record, JOIN_WINDOW_MS); }
  }

  /** Everything already slid past is behind. */
  predicate PassedBy(ring: seq<RingRecord>, j: nat, low: int) {
    forall i :: 0 <= i < j && i < |ring| ==> Behind(ring[i], low)
  }

  /** A record that is not before the prefilter's origin chooses the same partner either way. */
  lemma SameChoice(a: RingRecord, ring: seq<RingRecord>, j: nat, w: int)
    requires TimeOrdered(ring) && a.record.time + w >= 0 && PassedBy(ring, j, a.record.time - w)
    requires forall b <- ring :: Admits(a.record, b.record, w)
    ensures FirstInWindow(a, ring, Slide(ring, j, a.record.time - w), a.record.time + w) == FirstJoinable(a, ring, 0)
    ensures PassedBy(ring, Slide(ring, j, a.record.time - w), a.record.time - w)
  {
    hide Joinable, Admits;
    var low, high := a.record.time - w, a.record.time + w;
    SlideSkips(ring, j, low);
    var from := Slide(ring, j, low);
    var stop := WindowFinds(a, ring, from, high);
    FirstJoinableFinds(a, ring, 0);
    var chosen, naive := FirstInWindow(a, ring, from, high), FirstJoinable(a, ring, 0);
    if naive < |ring| {
      NotSkipped(a, ring, from, stop, naive, w);
    }
  }

  /** A joinable record lies at or after the place where the sliding stopped and not after the window's end. */
  lemma NotSkipped(a: RingRecord, ring: seq<RingRecord>, from: nat, stop: nat, k: nat, w: int)
    requires TimeOrdered(ring) && a.record.time + w >= 0 && PassedBy(ring, from, a.record.time - w)
    requires k < |ring| && Admits(a.record, ring[k].record, w) && Joinable(a, ring[k])
    ensures from <= k
    ensures stop < |ring| && ring[stop].record.time > a.record.time + w ==> k < stop
  {
    hide Joinable, Admits;
    if k < from { TooEarlyOrLate(a, ring[k], w); }
    if stop < |ring| && ring[stop].record.time > a.record.time + w && stop <= k {
      if ring[k].record.time == 0 {
        assert Behind(ring[k], a.record.time - w);
      }
      TooEarlyOrLate(a, ring[k], w);
    }
  }

  /** No record without a time stands between the slide position and the first joinable record, if there is one. */
  predicate Unobstructed(ring: seq<RingRecord>, from: nat, first: nat) {
    first >= |ring| || forall i :: from <= i < first ==> ring[i].record.time != 0
  }

  lemma NotBehind(a: RingRecord, ring: seq<RingRecord>, from: nat, k: nat, w: int)
    requires PassedBy(ring, from, a.record.time - w) && k < |ring|
    requires Admits(a.record, ring[k].record, w) && Joinable(a, ring[k])
    ensures from <= k && 0 != ring[k].record.time <= a.record.time + w
  {
    hide Joinable, Admits;
    if k < from || ring[k].record.time > a.record.time + w { TooEarlyOrLate(a, ring[k], w); }
    UsableTime(a, ring[k]);
  }

  lemma UsableTime(a: RingRecord, b: RingRecord)
    requires Joinable(a, b)
    ensures b.record.time != 0
  {
    MatchedEdge(a.record, b.record, JOIN_WINDOW_MS);
  }

  /** A record without a time ends a window that lies before the epoch. */
  lemma {:induction false} ObstructedWindow(a: RingRecord, ring: seq<RingRecord>, k: nat, high: int, at: nat)
    requires k <= at < |ring| && ring[at].record.time == 0 && high < 0
    requires forall i :: k <= i < at ==> !Joinable(a, ring[i])
    ensures FirstInWindow(a, ring, k, high) == |ring|
    decreases at - k
  {
    hide Joinable;
    if k < at && ring[k].record.time <= high { ObstructedWindow(a, ring, k + 1, high, at); }
  }

  lemma {:induction false} ClearWindow(a: RingRecord, ring: seq<RingRecord>, k: nat, high: int, first: nat)
    requires k <= first < |ring| && Joinable(a, ring[first]) && forall i :: k <= i < first ==> !Joinable(a, ring[i])
    requires forall i :: k <= i <= first ==> ring[i].record.time <= high
    ensures FirstInWindow(a, ring, k, high) == first
    decreases first - k
  {
    hide Joinable;
    if k < first { ClearWindow(a, ring, k + 1, high, first); }
  }

  /** The two scans choose the same partner if and only if the window reaches the
      epoch or no record without a time stands in its way. */
  lemma SameChoiceExactly(a: RingRecord, ring: seq<RingRecord>, j: nat, w: int)
    requires TimeOrdered(ring) && PassedBy(ring, j, a.record.time - w)
    requires forall b <- ring :: Admits(a.record, b.record, w)
    ensures var from, first := Slide(ring, j, a.record.time - w), FirstJoinable(a, ring, 0);
            FirstInWindow(a, ring, from, a.record.time + w) == first
            <==> a.record.time + w >= 0 || Unobstructed(ring, from, first)
  {
    hide Joinable, Admits, TimeOrdered, Unobstructed, PassedBy, FirstInWindow, FirstJoinable;
    var high := a.record.time + w;
    var from, first := Slide(ring, j, a.record.time - w), FirstJoinable(a, ring, 0);
    if high >= 0 {
      SameChoice(a, ring, j, w);
    } else {
      SlideKeepsPassed(ring, j, a.record.time - w);
      FirstJoinableFinds(a, ring, 0);
      if first < |ring| {
        NotBehind(a, ring, from, first, w);
        BeforeTheEpoch(a, ring, from, first, high);
      } else {
        NothingInWindow(a, ring, from, high);
      }
    }
  }

  lemma SlideKeepsPassed(ring: seq<RingRecord>, j: nat, low: int)
    requires PassedBy(ring, j, low)
    ensures PassedBy(ring, Slide(ring, j, low), low)
  {
    SlideSkips(ring, j, low);
  }

  lemma NothingInWindow(a: RingRecord, ring: seq<RingRecord>, from: nat, high: int)
    requires forall i :: 0 <= i < |ring| ==> !Joinable(a, ring[i])
    ensures FirstInWindow(a, ring, from, high) == |ring| && Unobstructed(ring, from, |ring|)
  {
    hide Joinable;
    var _ := WindowFinds(a, ring, from, high);
  }

  lemma BeforeTheEpoch(a: RingRecord, ring: seq<RingRecord>, from: nat, first: nat, high: int)
    requires TimeOrdered(ring) && from <= first < |ring| && high < 0
    requires Joinable(a, ring[first]) && 0 != ring[first].record.time <= high
    requires forall i :: 0 <= i < first ==> !Joinable(a, ring[i])
    ensures FirstInWindow(a, ring, from, high) == first <==> Unobstructed(ring, from, first)
  {
    hide Joinable, FirstInWindow;
    if Unobstructed(ring, from, first) {
      ClearWindow(a, ring, from, high, first);
    } else {
      var i :| from <= i < first && ring[i].record.time == 0;
      ObstructedWindow(a, ring, from, high, i);
    }
  }

  // ---------------------------------------------------------------- the scan of two rings

  predicate AllAdmitted(p: seq<RingRecord>, q: seq<RingRecord>, w: int) {
    forall a <- p, b <- q :: Admits(a.record, b.record, w)
  }

  predicate NotBefore(ring: seq<RingRecord>, limit: int) {
    forall x <- ring :: x.record.time + limit >= 0
  }

  ghost predicate ScanOk(p: Scan, w: int) {
    TimeOrdered(p.a) && TimeOrdered(p.b) && NotBefore(p.a, w) && AllAdmitted(p.a, p.b, w)
  }

  /** Joining changes no record's evidence. */
  predicate SameEvidence(ring: seq<RingRecord>, ring': seq<RingRecord>) {
    |ring| == |ring'| && forall i :: 0 <= i < |ring| ==> ring[i].record == ring'[i].record && ring[i].id == ring'[i].id
  }

  lemma LinkKeepsEvidence(book: Book, a: RingRecord, b: RingRecord, edge: Edge, now: int)
    ensures var l := AssignOrExtend(book, a, b, edge, now);
            l.a == a.(group := l.a.group) && l.b == b.(group := l.b.group)
  {
    hide Extend, ChainAt;
  }

  lemma JoinKeepsEvidence(p: Scan, i: nat, k: nat, now: int)
    requires i < |p.a|
    ensures SameEvidence(p.a, JoinIfAny(p, i, k, now).a) && SameEvidence(p.b, JoinIfAny(p, i, k, now).b)
  {
    hide AssignOrExtend, EdgeOf;
    if k < |p.b| {
      var a, b := p.a[i].(partners := p.a[i].partners + [p.b[k].id]),
        p.b[k].(partners := p.b[k].partners + [p.a[i].id]);
      LinkKeepsEvidence(p.book, a, b, EdgeOf(a, b), now);
    }
  }

  lemma SameEvidenceOrdered(ring: seq<RingRecord>, ring': seq<RingRecord>)
    requires SameEvidence(ring, ring') && TimeOrdered(ring)
    ensures TimeOrdered(ring')
  {
  }

  lemma SameEvidenceAdmitted(p: seq<RingRecord>, q: seq<RingRecord>, p': seq<RingRecord>, q': seq<RingRecord>, w: int)
    requires SameEvidence(p, p') && SameEvidence(q, q') && AllAdmitted(p, q, w)
    ensures AllAdmitted(p', q', w)
  {
    hide Admits;
    forall a <- p', b <- q' ensures Admits(a.record, b.record, w) {
      var i :| 0 <= i < |p'| && p'[i] == a;
      var k :| 0 <= k < |q'| && q'[k] == b;
      assert p[i] in p && q[k] in q;
    }
  }

  lemma SameEvidenceScanOk(p: Scan, p': Scan, w: int)
    requires ScanOk(p, w) && SameEvidence(p.a, p'.a) && SameEvidence(p.b, p'.b)
    ensures ScanOk(p', w)
  {
    hide TimeOrdered, AllAdmitted;
    SameEvidenceOrdered(p.a, p'.a);
    SameEvidenceOrdered(p.b, p'.b);
    SameEvidenceAdmitted(p.a, p.b, p'.a, p'.b, w);
  }

  /** What was behind one record is behind every later one. */
  predicate ReadyFor(p: Scan, i: nat, j: nat, w: int) {
    forall n :: i <= n < |p.a| && p.a[n].record.time != 0 ==> PassedBy(p.b, j, p.a[n].record.time - w)
  }

  lemma StaysReady(p: Scan, p': Scan, i: nat, j: nat, w: int)
    requires i < |p.a| && p.a[i].record.time != 0 && TimeOrdered(p.a) && PassedBy(p.b, j, p.a[i].record.time - w)
    requires SameEvidence(p.a, p'.a) && SameEvidence(p.b, p'.b)
    ensures ReadyFor(p', i + 1, j, w)
  {
    forall n | i + 1 <= n < |p'.a| && p'.a[n].record.time != 0 ensures PassedBy(p'.b, j, p'.a[n].record.time - w) {
      assert p.a[i].record.time <= p.a[n].record.time;
    }
  }

  /** On time-ordered rings whose matching pairs the prefilter admits, the two scans are the same function. */
  lemma {:induction false} TwoPointerIsNaive(p: Scan, i: nat, j: nat, w: int, now: int)
    requires ScanOk(p, w) && ReadyFor(p, i, j, w)
    ensures TwoPointerScan(p, i, j, w, now) == NaiveScan(p, i, now)
    ensures SameEvidence(p.a, NaiveScan(p, i, now).a) && SameEvidence(p.b, NaiveScan(p, i, now).b)
    decreases |p.a| - i
  {
    hide ScanOk, JoinIfAny, FirstInWindow, FirstJoinable, Slide, PassedBy;
    if i >= |p.a| || p.joins >= MAX_JOINS_PER_CYCLE {
    } else if !Scannable(p.a[i]) {
      TwoPointerIsNaive(p, i + 1, j, w, now);
    } else {
      var a, j' := p.a[i], Slide(p.b, j, p.a[i].record.time - w);
      ChoiceInScan(p, i, j, w);
      var p' := JoinIfAny(p, i, FirstJoinable(a, p.b, 0), now);
      JoinKeepsEvidence(p, i, FirstJoinable(a, p.b, 0), now);
      SameEvidenceScanOk(p, p', w);
      StaysReadyOk(p, p', i, j', w);
      TwoPointerIsNaive(p', i + 1, j', w, now);
    }
  }

  lemma ChoiceInScan(p: Scan, i: nat, j: nat, w: int)
    requires ScanOk(p, w) && i < |p.a| && PassedBy(p.b, j, p.a[i].record.time - w)
    ensures var time := p.a[i].record.time; var j' := Slide(p.b, j, time - w);
            && FirstInWindow(p.a[i], p.b, j', time + w) == FirstJoinable(p.a[i], p.b, 0)
            && PassedBy(p.b, j', time - w)
  {
    hide PassedBy, FirstInWindow, FirstJoinable, Admits, TimeOrdered;
    SameChoice(p.a[i], p.b, j, w);
  }

  lemma StaysReadyOk(p: Scan, p': Scan, i: nat, j: nat, w: int)
    requires ScanOk(p, w) && i < |p.a| && p.a[i].record.time != 0 && PassedBy(p.b, j, p.a[i].record.time - w)
    requires SameEvidence(p.a, p'.a) && SameEvidence(p.b, p'.b)
    ensures ReadyFor(p', i + 1, j, w)
  {
    StaysReady(p, p', i, j, w);
  }

  // ---------------------------------------------------------------- the whole cycle

  /** What a caller can check of an engine: ordered, non-negative times and short
      sessions, filed under the right endpoint. */
  ghost predicate Orderly(s: State) {
    forall e <- s.rings :: OrderlyRing(s.rings[e], e)
  }

  ghost predicate OrderlyRing(ring: seq<RingRecord>, e: string) {
    && TimeOrdered(ring)
    && forall x <- ring :: x.record.endpoint == e && x.record.time >= 0 && ShortSession(x.record)
  }

  lemma OrderlyScan(ra: seq<RingRecord>, rb: seq<RingRecord>, e: string, f: string, p: Scan)
    requires OrderlyRing(ra, e) && OrderlyRing(rb, f) && p.a == ra && p.b == rb
    ensures ScanOk(p, Prefilter(e, f)) && ReadyFor(p, 0, 0, Prefilter(e, f))
  {
    hide ShortSession, Admits, TimeOrdered, EvaluateEdge;
    forall a <- ra, b <- rb ensures Admits(a.record, b.record, Prefilter(e, f)) {
      ShortSessionsAreAdmitted(a.record, b.record);
    }
  }

  lemma SameEvidenceOrderly(ring: seq<RingRecord>, ring': seq<RingRecord>, e: string)
    requires SameEvidence(ring, ring') && OrderlyRing(ring, e)
    ensures OrderlyRing(ring', e)
  {
    hide ShortSession;
    SameEvidenceOrdered(ring, ring');
    forall x <- ring' ensures x.record.endpoint == e && x.record.time >= 0 && ShortSession(x.record) {
      var i :| 0 <= i < |ring'| && ring'[i] == x;
      assert ring[i] in ring;
    }
  }

  lemma RingIsOrderly(s: State, e: string)
    requires Orderly(s)
    ensures OrderlyRing(RingOf(s, e), e)
  {
  }

  lemma PairIsNaive(c: Progress, e: string, f: string, now: int)
    requires Orderly(c.s) && e != f
    ensures ScanPair(TwoPointer, c, e, f, now) == ScanPair(Naive, c, e, f, now)
    ensures Orderly(ScanPair(Naive, c, e, f, now).s)
  {
    hide TwoPointerScan, NaiveScan, OrderlyRing, ScanOk, ReadyFor, Prefilter, SameEvidence;
    var p := ScanOf(c, e, f);
    RingIsOrderly(c.s, e);
    RingIsOrderly(c.s, f);
    OrderlyScan(p.a, p.b, e, f, p);
    TwoPointerIsNaive(p, 0, 0, Prefilter(e, f), now);
    var p' := NaiveScan(p, 0, now);
    SameEvidenceOrderly(p.a, p'.a, e);
    SameEvidenceOrderly(p.b, p'.b, f);
  }

  lemma {:induction false} PairsAreNaive(c: Progress, endpoints: seq<string>, i: nat, j: nat, now: int)
    requires Orderly(c.s) && i < j && forall m, n :: 0 <= m < n < |endpoints| ==> endpoints[m] != endpoints[n]
    ensures ScanFrom(TwoPointer, c, endpoints, i, j, now) == ScanFrom(Naive, c, endpoints, i, j, now)
    decreases |endpoints| - i, |endpoints| - j
  {
    hide ScanPair, Orderly;
    if i >= |endpoints| || c.joins >= MAX_JOINS_PER_CYCLE {
    } else if j >= |endpoints| {
      PairsAreNaive(c, endpoints, i + 1, i + 2, now);
    } else {
      PairIsNaive(c, endpoints[i], endpoints[j], now);
      PairsAreNaive(ScanPair(Naive, c, endpoints[i], endpoints[j], now), endpoints, i, j + 1, now);
    }
  }

  // ---------------------------------------------------------------- ageing keeps the order

  /** Ageing only cuts a prefix off a ring. */
  lemma {:induction false} PrunedIsSuffix(ring: seq<RingRecord>, now: int) returns (n: nat)
    ensures n <= |ring| && PruneRing(ring, now) == ring[n..] && forall i :: 0 <= i < n ==> TooOld(ring[i], now)
    ensures n < |ring| ==> !TooOld(ring[n], now)
  {
    hide TooOld;
    n := 0;
    if ring != [] && TooOld(ring[0], now) {
      n := PrunedIsSuffix(ring[1..], now);
      assert ring[1..][n..] == ring[n + 1..];
      assert forall i :: 1 <= i < n + 1 ==> ring[i] == ring[1..][i - 1];
      n := n + 1;
    }
  }

  lemma SuffixIsOrderly(ring: seq<RingRecord>, n: nat, e: string)
    requires n <= |ring| && OrderlyRing(ring, e)
    ensures OrderlyRing(ring[n..], e)
  {
    hide ShortSession;
  }

  lemma {:induction false} PrunedIsOrderly(s: State, endpoints: seq<string>, k: nat, now: int)
    requires Orderly(s)
    ensures Orderly(PruneFrom(s, endpoints, k, now))
    decreases |endpoints| - k
  {
    hide OrderlyRing, PruneRing;
    if k < |endpoints| {
      var e := endpoints[k];
      var n := PrunedIsSuffix(RingOf(s, e), now);
      RingIsOrderly(s, e);
      SuffixIsOrderly(RingOf(s, e), n, e);
      var kept, ring := PruneRing(RingOf(s, e), now), RingOf(s, e);
      PrunedIsOrderly(s.(rings := s.rings[e := kept],
                         evictedByAge := if |kept| <= |ring| then s.evictedByAge + (|ring| - |kept|)
                           else s.evictedByAge),
                      endpoints, k + 1, now);
    }
  }

  lemma {:induction false} ExpireKeepsRings(s: State, out: seq<Revision>, order: seq<nat>, k: nat, now: int)
    ensures ExpireFrom(s, out, order, k, now).0.rings == s.rings
    decreases |order| - k
  {
    if k < |order| {
      if order[k] in s.book.chains && Expired(s.book.chains[order[k]], now) {
        ExpireKeepsRings(s.(book := s.book.(chains := s.book.chains - {order[k]}), expired := s.expired + 1),
                         out + [Closing(order[k], s.book.chains[order[k]])], order, k + 1, now);
      } else {
        ExpireKeepsRings(s, out, order, k + 1, now);
      }
    }
  }

  /** One whole cycle: the fast scan finds exactly what the naive scan finds. */
  lemma CycleIsNaive(s: State, endpoints: seq<string>, order: seq<nat>, now: int)
    requires Orderly(s) && Enumerates(endpoints, s.rings.Keys)
    ensures Cycle(TwoPointer, s, endpoints, order, now) == Cycle(Naive, s, endpoints, order, now)
  {
    hide ScanFrom, OrderlyRing, PruneFrom, ExpireFrom;
    var pruned := PruneFrom(s, endpoints, 0, now);
    PrunedIsOrderly(s, endpoints, 0, now);
    ExpireKeepsRings(pruned, [], order, 0, now);
    var aged := Aged(s, endpoints, order, now);
    PairsAreNaive(Progress(aged.0, 0, aged.1), endpoints, 0, 1, now);
  }

  // ---------------------------------------------------------------- where the scans differ

  function Plain(id: nat, endpoint: string, time: int, pid: nat): RingRecord {
    RingRecord(id, Record(endpoint, "", "", "", 0, time, pid, 0, "", "", "", "", -1, ""), 0, [])
  }

  function Session(id: nat, time: int, seconds: int): RingRecord {
    RingRecord(id, Record("port", "", "", "E:", seconds, time, 0, 0, "", "", "", "", -1, ""), 0, [])
  }

  /** A session longer than six hours: a record near its start is matched by the naive scan and never looked at. */
  lemma LongSessionsDiffer()
    ensures var a, ring := Plain(1, "process", 100, 7), [Session(2, 30_000_100, 30_000)];
            && FirstJoinable(a, ring, 0) == 0
            && FirstInWindow(a, ring, Slide(ring, 0, 100 - PORT_PREFILTER_MS), 100 + PORT_PREFILTER_MS) == |ring|
  {
    var a, b := Plain(1, "process", 100, 7), Session(2, 30_000_100, 30_000);
    assert "process"[1] != "port"[1];
    assert InSession(b.record, 100);
    assert Joinable(a, b);
  }

  /** Times before the epoch: a record without a time ends the window of the fast scan before the match behind it. */
  lemma NegativeTimesDiffer()
    ensures var a, ring := Plain(1, "process", -10_000, 7),
                           [Plain(2, "network", -10_001, 8), Plain(3, "network", 0, 7),
                            Plain(4, "network", -10_000, 7)];
            && TimeOrdered(ring) && FirstJoinable(a, ring, 0) == 2
            && FirstInWindow(a, ring, Slide(ring, 0, -10_000 - JOIN_WINDOW_MS), -10_000 + JOIN_WINDOW_MS) == |ring|
  {
    var a, b1, b2, b3 := Plain(1, "process", -10_000, 7), Plain(2, "network", -10_001, 8), Plain(3, "network", 0, 7),
      Plain(4, "network", -10_000, 7);
    var ring := [b1, b2, b3];
    assert "process"[1] != "port"[1] && "network"[0] != "port"[0];
    assert !Joinable(a, b1) && !Joinable(a, b2) && Joinable(a, b3);
    assert FirstJoinable(a, ring, 2) == 2;
    assert FirstJoinable(a, ring, 1) == 2;
    assert Slide(ring, 0, -12_000) == 0;
    assert FirstInWindow(a, ring, 1, -8_000) == 3;
  }
}
