/** What the correlation engine of CORRELATOR/correlation_engine.cpp keeps of a
    line, and two lines that end in one group. */
module CorrelationLines {
  import opened Text
  import opened JsonFields
  import opened Evidence
  import opened EvidenceExact
  import opened CorrelationSpec
  import opened CorrelationScan
  import opened CorrelationRuns
  import opened CorrelationComplete

  /** A line that says something about the endpoint, not about the collector. */
  predicate Says(line: string) {
    && line != "" && ExtractString(line, "record_type") != Some("collector_health")
    && ExtractString(line, "type") !in {Some("collector_health"), Some("startup"), Some("control_ack")}
  }

  /** The parsed line, with the first 4096 bytes of its text. */
  predicate IsRecordOf(r: Record, endpoint: string, line: string) {
    && r.rawLine == (if |line| <= 4096 then line else line[..4096])
    && r.(rawLine := line) == ParseEvidenceLine(endpoint, line)
  }

  /** A record without group or partners, numbered by the engine. */
  predicate IsNew(x: RingRecord, s: State, endpoint: string, line: string) {
    x.id == s.nextRecord && x.group == 0 && x.partners == [] && IsRecordOf(x.record, endpoint, line)
  }

  /** The newest record of the endpoint's ring is that of the line; a ring of 2000 loses its oldest one. Nothing else
      changes, and lines that say nothing change nothing at all. */
  lemma LineIsStored(s: State, endpoint: string, line: string)
    requires |RingOf(s, endpoint)| <= 2000
    ensures !Says(line) ==> Ingest(s, endpoint, line) == s
    ensures Says(line) ==>
              var s', ring := Ingest(s, endpoint, line), RingOf(s, endpoint); var ring' := RingOf(s', endpoint);
              && endpoint in s'.rings && ring' != [] && IsNew(ring'[|ring'| - 1], s, endpoint, line)
              && ring'[..|ring'| - 1] == (if |ring| < 2000 then ring else ring[1..])
              && s'.evictedByCapacity == s.evictedByCapacity + (if |ring| < 2000 then 0 else 1)
              && s'.nextRecord == s.nextRecord + 1 && s'.book == s.book && s'.expired == s.expired
              && s'.rings.Keys == s.rings.Keys + {endpoint}
              && forall e <- s.rings :: e != endpoint ==> s'.rings[e] == s.rings[e]
  {
    hide ParseEvidenceLine, ExtractString;
    assert Says(line) <==> IsBehavioural(line);
    if Says(line) {
      StoredIsRecord(endpoint, line);
      var x := RingRecord(s.nextRecord, StoredRecord(endpoint, line), 0, []);
      var ring := RingOf(s, endpoint);
      assert (ring + [x])[..|ring|] == ring && (ring + [x])[1..] == if ring == [] then [] else ring[1..] + [x];
    }
  }

  lemma StoredIsRecord(endpoint: string, line: string)
    ensures IsRecordOf(StoredRecord(endpoint, line), endpoint, line)
  {
    hide ExtractString, ExtractNumber, NormalizeRecordType, BridgePath;
  }

  // ---------------------------------------------------------------- the choice of a partner

  /** By its fields the record may become a partner now. */
  predicate MayJoin(a: RingRecord, b: RingRecord) {
    Related(a.record, b.record, 2000) && |b.partners| < 4 && b.id !in a.partners
  }

  /** On a ring in order, all of whose records that match the prefilter admits, the scan
      chooses the first record that may join, and none exactly when there is none. */
  lemma PartnerExactly(a: RingRecord, ring: seq<RingRecord>, j: nat, w: int)
    requires TimeOrdered(ring) && a.record.time + w >= 0 && PassedBy(ring, j, a.record.time - w)
    requires forall b <- ring :: Admits(a.record, b.record, w)
    ensures var k := FirstInWindow(a, ring, Slide(ring, j, a.record.time - w), a.record.time + w);
            && k <= |ring| && (k < |ring| ==> MayJoin(a, ring[k])) && forall i :: 0 <= i < k ==> !MayJoin(a, ring[i])
  {
    hide Related, FirstInWindow, Slide, PassedBy, Admits, TimeOrdered, FirstJoinable;
    SameChoice(a, ring, j, w);
    FirstJoinableFinds(a, ring, 0);
    forall i | 0 <= i < |ring| ensures MayJoin(a, ring[i]) <==> Joinable(a, ring[i]) {
      MatchesExactly(a.record, ring[i].record, 2000);
    }
  }

  // ---------------------------------------------------------------- groups that age

  /** The final line of a group. */
  predicate IsFinalLine(line: Revision, g: nat, c: Chain) {
    line.group == g && line.final && line.revision == c.revision && line.members == c.members
  }

  predicate Stale(s: State, order: seq<nat>, k: nat, now: int, g: nat)
    requires k <= |order|
  {
    g in s.book.chains && g in order[k..] && now - s.book.chains[g].updated > 1_800_000
  }

  /** The groups from position k on that were not extended for more than thirty minutes have left. */
  ghost predicate StaleLeft(s: State, s': State, order: seq<nat>, k: nat, now: int)
    requires k <= |order|
  {
    && (forall g :: g in s'.book.chains <==> g in s.book.chains && !Stale(s, order, k, now, g))
    && forall g <- s'.book.chains :: s'.book.chains[g] == s.book.chains[g]
  }

  /** Each of them has one final line. */
  ghost predicate FinalsFor(s: State, lines: seq<Revision>, order: seq<nat>, k: nat, now: int)
    requires k <= |order|
  {
    && (forall line <- lines ::
          Stale(s, order, k, now, line.group) && IsFinalLine(line, line.group, s.book.chains[line.group]))
    && (forall g :: Stale(s, order, k, now, g) ==> exists line <- lines :: line.group == g)
    && forall i, j :: 0 <= i < j < |lines| ==> lines[i].group != lines[j].group
  }

  lemma {:induction false} GroupsAgeFrom(s: State, out: seq<Revision>, order: seq<nat>, k: nat, now: int)
    returns (lines: seq<Revision>)
    requires k <= |order| && forall i, j :: 0 <= i < j < |order| ==> order[i] != order[j]
    ensures var r := ExpireFrom(s, out, order, k, now);
            r.1 == out + lines && StaleLeft(s, r.0, order, k, now) && FinalsFor(s, lines, order, k, now)
    decreases |order| - k
  {
    hide StaleLeft, FinalsFor;
    lines := [];
    if k == |order| {
      NobodyIsStale(s, order, now);
    } else {
      var g := order[k];
      assert order[k..] == [g] + order[k + 1..];
      if g in s.book.chains && now - s.book.chains[g].updated > 1_800_000 {
        var line := Closing(g, s.book.chains[g]);
        var s1 := s.(book := s.book.(chains := s.book.chains - {g}), expired := s.expired + 1);
        var more := GroupsAgeFrom(s1, out + [line], order, k + 1, now);
        lines := [line] + more;
        assert out + [line] + more == out + lines;
        OneIsStale(s, s1, order, k, now);
        OneLeaves(s, s1, ExpireFrom(s1, out + [line], order, k + 1, now).0, order, k, now);
        OneMoreFinal(s, s1, more, order, k, now);
      } else {
        lines := GroupsAgeFrom(s, out, order, k + 1, now);
        OneStays(s, ExpireFrom(s, out, order, k + 1, now).0, lines, order, k, now);
      }
    }
  }

  lemma NobodyIsStale(s: State, order: seq<nat>, now: int)
    ensures StaleLeft(s, s, order, |order|, now) && FinalsFor(s, [], order, |order|, now)
  {
  }

  /** The group at position k is closed. */
  predicate Closed(s: State, s1: State, order: seq<nat>, k: nat, now: int) {
    && k < |order| && Stale(s, order, k, now, order[k])
    && s1.book.chains == s.book.chains - {order[k]}
  }

  lemma OneIsStale(s: State, s1: State, order: seq<nat>, k: nat, now: int)
    requires k < |order| && order[k] in s.book.chains && now - s.book.chains[order[k]].updated > 1_800_000
    requires s1.book.chains == s.book.chains - {order[k]}
    requires forall i, j :: 0 <= i < j < |order| ==> order[i] != order[j]
    ensures Closed(s, s1, order, k, now)
    ensures forall g :: Stale(s, order, k, now, g) <==> g == order[k] || Stale(s1, order, k + 1, now, g)
    ensures forall g :: Stale(s1, order, k + 1, now, g) ==> g != order[k] && s1.book.chains[g] == s.book.chains[g]
  {
    assert order[k..] == [order[k]] + order[k + 1..];
  }

  lemma OneLeaves(s: State, s1: State, s': State, order: seq<nat>, k: nat, now: int)
    requires Closed(s, s1, order, k, now) && StaleLeft(s1, s', order, k + 1, now)
    requires forall g :: Stale(s, order, k, now, g) <==> g == order[k] || Stale(s1, order, k + 1, now, g)
    ensures StaleLeft(s, s', order, k, now)
  {
    hide Stale;
  }

  lemma OneMoreFinal(s: State, s1: State, more: seq<Revision>, order: seq<nat>, k: nat, now: int)
    requires Closed(s, s1, order, k, now) && FinalsFor(s1, more, order, k + 1, now) && order[k] in s.book.chains
    requires forall g :: Stale(s, order, k, now, g) <==> g == order[k] || Stale(s1, order, k + 1, now, g)
    requires forall g :: Stale(s1, order, k + 1, now, g) ==>
               g in s1.book.chains && g in s.book.chains && g != order[k] && s1.book.chains[g] == s.book.chains[g]
    ensures FinalsFor(s, [Closing(order[k], s.book.chains[order[k]])] + more, order, k, now)
  {
    hide Stale, IsFinalLine;
    var line := Closing(order[k], s.book.chains[order[k]]);
    var lines := [line] + more;
    ClosingIsFinal(order[k], s.book.chains[order[k]]);
    forall l | l in lines
      ensures Stale(s, order, k, now, l.group) && l.group in s.book.chains
              && IsFinalLine(l, l.group, s.book.chains[l.group])
    {
      assert l == line || l in more;
    }
    forall g | Stale(s, order, k, now, g) ensures exists l <- lines :: l.group == g { SomeFinal(line, more, g); }
    GroupsDiffer(line, more);
  }

  lemma ClosingIsFinal(g: nat, c: Chain)
    ensures IsFinalLine(Closing(g, c), g, c) && Closing(g, c).group == g
  {
  }

  lemma SomeFinal(line: Revision, more: seq<Revision>, g: nat)
    requires line.group == g || exists l <- more :: l.group == g
    ensures exists l <- [line] + more :: l.group == g
  {
    if line.group == g {
      assert ([line] + more)[0] == line;
    } else {
      var l :| l in more && l.group == g;
      assert l in [line] + more;
    }
  }

  lemma GroupsDiffer(line: Revision, more: seq<Revision>)
    requires forall l <- more :: l.group != line.group
    requires forall i, j :: 0 <= i < j < |more| ==> more[i].group != more[j].group
    ensures var lines := [line] + more; forall i, j :: 0 <= i < j < |lines| ==> lines[i].group != lines[j].group
  {
    var lines := [line] + more;
    forall i, j | 0 <= i < j < |lines| ensures lines[i].group != lines[j].group {
      assert lines[j] == more[j - 1] && more[j - 1] in more;
      assert i > 0 ==> lines[i] == more[i - 1];
    }
  }

  lemma OneStays(s: State, s': State, lines: seq<Revision>, order: seq<nat>, k: nat, now: int)
    requires k < |order| && StaleLeft(s, s', order, k + 1, now) && FinalsFor(s, lines, order, k + 1, now)
    requires !(order[k] in s.book.chains && now - s.book.chains[order[k]].updated > 1_800_000)
    ensures StaleLeft(s, s', order, k, now) && FinalsFor(s, lines, order, k, now)
  {
    assert order[k..] == [order[k]] + order[k + 1..];
    assert forall g :: Stale(s, order, k, now, g) <==> Stale(s, order, k + 1, now, g);
  }

  /** Ageing closes exactly the groups not extended for more than thirty minutes, each with one final line that shows it
      as it was, and leaves the others as they are. */
  lemma GroupsAgeExactly(s: State, out: seq<Revision>, order: seq<nat>, now: int) returns (lines: seq<Revision>)
    requires Enumerates(order, s.book.chains.Keys)
    ensures var r := ExpireFrom(s, out, order, 0, now); var before, after := s.book.chains, r.0.book.chains;
            && r.1 == out + lines
            && (forall g :: g in after <==> g in before && now - before[g].updated <= 1_800_000)
            && (forall g <- after :: after[g] == before[g])
            && (forall line <- lines :: line.group in before && now - before[line.group].updated > 1_800_000
                  && IsFinalLine(line, line.group, before[line.group]))
            && (forall g <- before :: now - before[g].updated > 1_800_000 ==> exists line <- lines :: line.group == g)
            && forall i, j :: 0 <= i < j < |lines| ==> lines[i].group != lines[j].group
  {
    hide ExpireFrom;
    lines := GroupsAgeFrom(s, out, order, 0, now);
    assert order[0..] == order;
    assert forall g :: Stale(s, order, 0, now, g) <==>
                         g in s.book.chains && now - s.book.chains[g].updated > 1_800_000;
  }

  // ---------------------------------------------------------------- two lines

  /** The engine after two lines. */
  function AfterTwo(e: string, v: string, f: string, w: string): State {
    Ingest(Ingest(EMPTY_ENGINE, e, v), f, w)
  }

  lemma TwoAreStored(e: string, v: string, f: string, w: string) returns (a: RingRecord, b: RingRecord)
    requires e != f && Says(v) && Says(w)
    ensures var s := AfterTwo(e, v, f, w);
            && IsRecordOf(a.record, e, v) && IsRecordOf(b.record, f, w)
            && a.group == b.group == 0 && a.partners == b.partners == []
            && s.rings == map[e := [a], f := [b]] && s.book == EMPTY_ENGINE.book
  {
    hide ParseEvidenceLine, ExtractString, Ingest, IsRecordOf, Says;
    var s1 := Ingest(EMPTY_ENGINE, e, v);
    LineIsStored(EMPTY_ENGINE, e, v);
    LineIsStored(s1, f, w);
    a, b := s1.rings[e][0], AfterTwo(e, v, f, w).rings[f][0];
    assert s1.rings[e] == [a] && AfterTwo(e, v, f, w).rings[f] == [b];
  }

  /** The lines are evidence that belongs together: related within the window, neither
      more than thirty minutes old, and near enough for the scan to look at both. */
  predicate BelongTogether(a: Record, b: Record, now: int) {
    && Related(a, b, 2000) && now - a.time <= 1_800_000 && now - b.time <= 1_800_000
    && var w := if a.endpoint == "port" || b.endpoint == "port" then 21_600_000 else 2000;
       a.time - w <= b.time <= a.time + w
  }

  /** From a fresh engine: two lines of two endpoints that belong together are put by the next
      cycle, in whatever order it takes the endpoints, into a live group of their own. */
  lemma TwoLinesEndTogether(e: string, v: string, f: string, w: string, endpoints: seq<string>, now: int)
    requires e != f && Says(v) && Says(w) && Enumerates(endpoints, {e, f})
    requires BelongTogether(ParseEvidenceLine(e, v), ParseEvidenceLine(f, w), now)
    ensures var r := Cycle(TwoPointer, AfterTwo(e, v, f, w), endpoints, [], now).s;
            && e in r.rings && f in r.rings && |r.rings[e]| == |r.rings[f]| == 1
            && var x, y := r.rings[e][0], r.rings[f][0];
               && x.group == y.group != 0 && x.group in r.book.chains && |r.book.chains[x.group].members| == 2
               && (forall m <- r.book.chains[x.group].members :: m.id == x.id || m.id == y.id)
               && IsRecordOf(x.record, e, v) && IsRecordOf(y.record, f, w)
  {
    hide ParseEvidenceLine, Related, AfterTwo, Cycle, IsRecordOf, Enumerates;
    var a, b := TwoAreStored(e, v, f, w);
    var s := AfterTwo(e, v, f, w);
    SameRelation(a.record, e, v, b.record, f, w);
    TwoPlaces(endpoints, e, f);
    assert s.rings.Keys == {e, f};
    if endpoints[0] == e {
      TogetherInOrder(s, endpoints, now, a, b);
    } else {
      RelatedBothWays(a.record, b.record);
      TogetherInOrder(s, endpoints, now, b, a);
    }
  }

  lemma TwoPlaces(endpoints: seq<string>, e: string, f: string)
    requires e != f && Enumerates(endpoints, {e, f})
    ensures |endpoints| == 2 && ((endpoints[0] == e && endpoints[1] == f) || (endpoints[0] == f && endpoints[1] == e))
  {
    assert e in endpoints && f in endpoints;
    var i :| 0 <= i < |endpoints| && endpoints[i] == e;
    var j :| 0 <= j < |endpoints| && endpoints[j] == f;
    OneOfTwo(endpoints, e, f, i, j, 0);
    OneOfTwo(endpoints, e, f, i, j, 1);
    OneOfTwo(endpoints, e, f, i, j, 2);
  }

  lemma OneOfTwo(endpoints: seq<string>, e: string, f: string, i: nat, j: nat, k: nat)
    requires Enumerates(endpoints, {e, f}) && i < |endpoints| && j < |endpoints| && endpoints[i] == e
             && endpoints[j] == f
    ensures k < |endpoints| ==> k == i || k == j
  {
    if k < |endpoints| {
      assert endpoints[k] in endpoints;
      assert endpoints[k] == e || endpoints[k] == f;
    }
  }

  lemma RelatedBothWays(a: Record, b: Record)
    ensures Related(a, b, 2000) <==> Related(b, a, 2000)
  {
    EdgeIsSymmetric(a, b, 2000);
    MatchesExactly(a, b, 2000);
    MatchesExactly(b, a, 2000);
  }

  /** The text of a record plays no part. */
  lemma SameRelation(a: Record, e: string, v: string, b: Record, f: string, w: string)
    requires IsRecordOf(a, e, v) && IsRecordOf(b, f, w)
    ensures var p, q := ParseEvidenceLine(e, v), ParseEvidenceLine(f, w);
            && (Related(p, q, 2000) <==> Related(a, b, 2000)) && a.time == p.time && b.time == q.time
            && a.endpoint == p.endpoint == e && b.endpoint == q.endpoint == f
  {
    hide ExtractString, ExtractNumber, NormalizeRecordType, BridgePath;
    var p, q := ParseEvidenceLine(e, v), ParseEvidenceLine(f, w);
    MatchesExactly(p, q, 2000);
    MatchesExactly(a, b, 2000);
    assert a.(rawLine := v) == p && b.(rawLine := w) == q;
  }

  lemma NothingExpires(s: State, endpoints: seq<string>, now: int)
    requires Enumerates(endpoints, s.rings.Keys)
    ensures Aged(s, endpoints, [], now).0.book == s.book
  {
    hide PruneFrom, Enumerates;
    PruneAll(s, endpoints, now);
  }

  lemma TogetherInOrder(s: State, endpoints: seq<string>, now: int, a: RingRecord, b: RingRecord)
    requires |endpoints| == 2 && endpoints[0] != endpoints[1] && Enumerates(endpoints, s.rings.Keys)
    requires s.rings == map[endpoints[0] := [a], endpoints[1] := [b]] && s.book == EMPTY_ENGINE.book
    requires a.group == b.group == 0 && a.partners == b.partners == []
    requires a.record.endpoint == endpoints[0] && b.record.endpoint == endpoints[1]
    requires BelongTogether(a.record, b.record, now)
    ensures var r := Cycle(TwoPointer, s, endpoints, [], now).s;
            && endpoints[0] in r.rings && endpoints[1] in r.rings
            && |r.rings[endpoints[0]]| == |r.rings[endpoints[1]]| == 1
            && var x, y := r.rings[endpoints[0]][0], r.rings[endpoints[1]][0];
               && x.group == y.group != 0 && x.group in r.book.chains && |r.book.chains[x.group].members| == 2
               && (forall m <- r.book.chains[x.group].members :: m.id == x.id || m.id == y.id)
               && x.record == a.record && y.record == b.record
  {
    hide Related, Cycle, Aged;
    TwoEndTogether(s, endpoints, [], now, 0, 1, a, b);
    NothingExpires(s, endpoints, now);
  }
}
