/** CORRELATOR/correlation_engine.cpp in its own form: the class whose rings and group maps are updated in place,
    proved to do what the functions of CorrelationSpec say. */
module CorrelationEngines {
  import opened Text
  import opened Evidence
  import opened CorrelationSpec

  function Merged(groups: map<nat, seq<GroupMember>>, revisions: map<nat, nat>, updated: map<nat, int>): map<nat, Chain>
    requires groups.Keys == revisions.Keys == updated.Keys
  {
    map g | g in groups :: Chain(groups[g], revisions[g], updated[g])
  }

  lemma MergedPut(groups: map<nat, seq<GroupMember>>, revisions: map<nat, nat>, updated: map<nat, int>, g: nat,
                  c: Chain)
    requires groups.Keys == revisions.Keys == updated.Keys
    ensures Merged(groups[g := c.members], revisions[g := c.revision], updated[g := c.updated])
            == Merged(groups, revisions, updated)[g := c]
  {
  }

  lemma MergedErase(groups: map<nat, seq<GroupMember>>, revisions: map<nat, nat>, updated: map<nat, int>, g: nat)
    requires groups.Keys == revisions.Keys == updated.Keys
    ensures (groups - {g}).Keys == (revisions - {g}).Keys == (updated - {g}).Keys
    ensures Merged(groups - {g}, revisions - {g}, updated - {g}) == Merged(groups, revisions, updated) - {g}
  {
  }

  lemma MergedSize(groups: map<nat, seq<GroupMember>>, revisions: map<nat, nat>, updated: map<nat, int>)
    requires groups.Keys == revisions.Keys == updated.Keys
    ensures |Merged(groups, revisions, updated)| == |groups|
  {
    assert Merged(groups, revisions, updated).Keys == groups.Keys;
    assert |Merged(groups, revisions, updated)| == |Merged(groups, revisions, updated).Keys|
           && |groups| == |groups.Keys|;
  }

  class CorrelationEngine {
    var byEndpoint: map<string, seq<RingRecord>>
    var groups: map<nat, seq<GroupMember>>
    var groupRevision: map<nat, nat>
    var groupLastUpdatedMs: map<nat, int>
    var nextRecordId: nat
    var nextGroupId: nat
    var declines: Declines
    var evictedByCapacity: nat
    var evictedByAge: nat
    var expiredGroupCount: nat

    ghost predicate Valid()
      reads this
    {
      groups.Keys == groupRevision.Keys == groupLastUpdatedMs.Keys
    }

    ghost function BookOf(): Book
      requires Valid()
      reads this
    {
      Book(Merged(groups, groupRevision, groupLastUpdatedMs), nextGroupId, declines)
    }

    ghost function Contents(): State
      requires Valid()
      reads this
    {
      State(byEndpoint, BookOf(), nextRecordId, evictedByCapacity, evictedByAge, expiredGroupCount)
    }

    constructor ()
      ensures Valid() && Contents() == EMPTY_ENGINE
    {
      byEndpoint, groups, groupRevision, groupLastUpdatedMs := map[], map[], map[], map[];
      nextRecordId, nextGroupId, declines := 1, 1, Declines(0, 0, 0);
      evictedByCapacity, evictedByAge, expiredGroupCount := 0, 0, 0;
    }

    method Ingest(endpoint: string, rawLine: string)
      requires Valid()
      modifies this`byEndpoint, this`nextRecordId, this`evictedByCapacity
      ensures Valid() && Contents() == CorrelationSpec.Ingest(old(Contents()), endpoint, rawLine)
    {
      hide ParseEvidenceLine, IsOperationalStatusLine;
      if rawLine == "" || IsOperationalStatusLine(rawLine) { return; }
      var record := ParseEvidenceLine(endpoint, rawLine);
      if |record.rawLine| > RAW_LINE_LIMIT { record := record.(rawLine := record.rawLine[..RAW_LINE_LIMIT]); }
      var ring := (if endpoint in byEndpoint then byEndpoint[endpoint] else [])
        + [RingRecord(nextRecordId, record, 0, [])];
      nextRecordId := nextRecordId + 1;
      if |ring| > MAX_PER_ENDPOINT {
        ring := ring[1..];
        evictedByCapacity := evictedByCapacity + 1;
      }
      byEndpoint := byEndpoint[endpoint := ring];
    }

    method PruneStale(now: int, endpoints: seq<string>)
      requires Valid() && Enumerates(endpoints, byEndpoint.Keys)
      modifies this`byEndpoint, this`evictedByAge
      ensures Valid() && Contents() == PruneFrom(old(Contents()), endpoints, 0, now)
      ensures byEndpoint.Keys == old(byEndpoint.Keys)
    {
      hide TooOld, Merged;
      var k := 0;
      while k < |endpoints|
        invariant 0 <= k <= |endpoints|
        invariant byEndpoint.Keys == old(byEndpoint.Keys)
        invariant PruneFrom(Contents(), endpoints, k, now) == PruneFrom(old(Contents()), endpoints, 0, now)
      {
        assert endpoints[k] in endpoints;
        var ring := byEndpoint[endpoints[k]];
        ghost var whole, evicted := ring, evictedByAge;
        while ring != [] && TooOld(ring[0], now)
          invariant PruneRing(ring, now) == PruneRing(whole, now) && |ring| <= |whole|
          invariant evictedByAge == evicted + (|whole| - |ring|)
          decreases |ring|
          modifies this`evictedByAge
        {
          ring := ring[1..];
          evictedByAge := evictedByAge + 1;
        }
        byEndpoint := byEndpoint[endpoints[k] := ring];
        k := k + 1;
      }
    }

    /** Emits the final line of every expired group and forgets it; `order` is the iteration order of the map. */
    method PruneStaleGroups(now: int, order: seq<nat>) returns (out: seq<Revision>)
      requires Valid() && Enumerates(order, groups.Keys)
      modifies this`groups, this`groupRevision, this`groupLastUpdatedMs, this`expiredGroupCount
      ensures Valid() && (Contents(), out) == ExpireFrom(old(Contents()), [], order, 0, now)
    {
      hide Merged, BookOf, Expired;
      out := [];
      var k := 0;
      while k < |order|
        invariant 0 <= k <= |order| && Valid()
        invariant forall i :: k <= i < |order| ==> order[i] in groups
        invariant ExpireFrom(Contents(), out, order, k, now) == ExpireFrom(old(Contents()), [], order, 0, now)
      {
        var line := CloseIfStale(order[k], now);
        if line.Some? { out := out + [line.value]; }
        k := k + 1;
      }
    }

    method CloseIfStale(g: nat, now: int) returns (line: Option<Revision>)
      requires Valid() && g in groups
      modifies this`groups, this`groupRevision, this`groupLastUpdatedMs, this`expiredGroupCount
      ensures Valid() && forall h :: h != g ==> (h in groups <==> h in old(groups))
      ensures g in old(BookOf()).chains
      ensures var s, c := old(Contents()), old(BookOf()).chains[g];
              if Expired(c, now) then
                && Contents() == s.(book := s.book.(chains := s.book.chains - {g}), expired := s.expired + 1)
                && line == Some(Closing(g, c))
              else Contents() == s && line == None
    {
      hide Merged;
      MergedAt(g);
      if now - groupLastUpdatedMs[g] <= MAX_AGE_MS { return None; }
      MergedErase(groups, groupRevision, groupLastUpdatedMs, g);
      line := Some(Revision(g, groupRevision[g], true, groups[g]));
      expiredGroupCount := expiredGroupCount + 1;
      groups, groupRevision, groupLastUpdatedMs := groups - {g}, groupRevision - {g}, groupLastUpdatedMs - {g};
    }

    lemma MergedAt(g: nat)
      requires Valid()
      ensures g in BookOf().chains <==> g in groups
      ensures g in groups ==> BookOf().chains[g] == Chain(groups[g], groupRevision[g], groupLastUpdatedMs[g])
      ensures |BookOf().chains| == |groups|
    {
      MergedSize(groups, groupRevision, groupLastUpdatedMs);
    }

    /** One member more in group `g`, which is created if it is not there. */
    method Grow(g: nat, x: RingRecord, edge: Edge, now: int) returns (grown: bool)
      requires Valid()
      modifies this`groups, this`groupRevision, this`groupLastUpdatedMs, this`declines
      ensures Valid() && grown == (|ChainAt(old(BookOf()), g).members| < MAX_GROUP_SIZE)
      ensures BookOf() == if grown then Extend(old(BookOf()), g, x, edge, now) else DeclineSize(old(BookOf()))
    {
      hide Merged;
      MergedAt(g);
      var members := if g in groups then groups[g] else [];
      var revision := if g in groups then groupRevision[g] else 0;
      if |members| >= MAX_GROUP_SIZE {
        declines := declines.(size := declines.size + 1);
        return false;
      }
      MergedPut(groups, groupRevision, groupLastUpdatedMs, g, Chain(members + [Joined(x, edge)], revision + 1, now));
      groups := groups[g := members + [Joined(x, edge)]];
      groupLastUpdatedMs := groupLastUpdatedMs[g := now];
      groupRevision := groupRevision[g := revision + 1];
      return true;
    }

    method AssignOrExtendGroup(a: RingRecord, b: RingRecord, edge: Edge, now: int)
      returns (gid: nat, a': RingRecord, b': RingRecord)
      requires Valid()
      modifies this`groups, this`groupRevision, this`groupLastUpdatedMs, this`nextGroupId, this`declines
      ensures Valid() && Link(BookOf(), a', b', gid) == AssignOrExtend(old(BookOf()), a, b, edge, now)
    {
      hide Merged, Extend, ChainAt;
      a', b', gid := a, b, 0;
      if a.group != 0 && a.group == b.group { return; }
      if a.group == 0 && b.group == 0 {
        MergedAt(0);
        if |groups| >= MAX_ACTIVE_GROUPS {
          declines := declines.(active := declines.active + 1);
          return;
        }
        gid := nextGroupId;
        nextGroupId := nextGroupId + 1;
        MergedPut(groups, groupRevision, groupLastUpdatedMs, gid, Chain([Anchor(a), Joined(b, edge)], 1, now));
        groups := groups[gid := [Anchor(a), Joined(b, edge)]];
        groupLastUpdatedMs := groupLastUpdatedMs[gid := now];
        groupRevision := groupRevision[gid := 1];
        a', b' := a.(group := gid), b.(group := gid);
      } else if a.group != 0 && b.group == 0 {
        var grown := Grow(a.group, b, edge, now);
        if grown { b', gid := b.(group := a.group), a.group; }
      } else if b.group != 0 && a.group == 0 {
        var grown := Grow(b.group, a, edge, now);
        if grown { a', gid := a.(group := b.group), b.group; }
      } else {
        declines := declines.(crossMerge := declines.crossMerge + 1);
      }
    }

    ghost function ScanState(aRing: seq<RingRecord>, bRing: seq<RingRecord>, joins: nat, out: seq<Revision>): Scan
      requires Valid()
      reads this
    {
      Scan(aRing, bRing, BookOf(), joins, out)
    }

    /** The two records become partners; the group that changed, if any, is published. */
    method JoinPair(aRing: seq<RingRecord>, bRing: seq<RingRecord>, ai: nat, bk: nat, joins: nat, out: seq<Revision>,
                    now: int)
      returns (aRing': seq<RingRecord>, bRing': seq<RingRecord>, joins': nat, out': seq<Revision>)
      requires Valid() && ai < |aRing| && bk < |bRing|
      modifies this`groups, this`groupRevision, this`groupLastUpdatedMs, this`nextGroupId, this`declines
      ensures Valid() && ScanState(aRing', bRing', joins', out')
              == JoinAt(old(ScanState(aRing, bRing, joins, out)), ai, bk, now)
    {
      hide Merged, AssignOrExtend, EvaluateEdge;
      joins', out' := joins, out;
      var a := aRing[ai].(partners := aRing[ai].partners + [bRing[bk].id]);
      var b := bRing[bk].(partners := bRing[bk].partners + [aRing[ai].id]);
      var edge := EvaluateEdge(a.record, b.record, JOIN_WINDOW_MS);
      var gid, a', b' := AssignOrExtendGroup(a, b, edge, now);
      aRing', bRing' := aRing[ai := a'], bRing[bk := b'];
      if gid != 0 {
        MergedAt(gid);
        var revision := if gid in groups then groupRevision[gid] else 0;
        out' := out + [Revision(gid, revision, false, if gid in groups then groups[gid] else [])];
        joins' := joins + 1;
      }
    }

    /** The two-pointer scan of one pair of rings. */
    method ScanRings(aRing0: seq<RingRecord>, bRing0: seq<RingRecord>, prefilter: int, joins0: nat, out0: seq<Revision>,
                     now: int)
      returns (aRing: seq<RingRecord>, bRing: seq<RingRecord>, joins: nat, out: seq<Revision>)
      requires Valid()
      modifies this`groups, this`groupRevision, this`groupLastUpdatedMs, this`nextGroupId, this`declines
      ensures Valid()
      ensures ScanState(aRing, bRing, joins, out)
              == TwoPointerScan(old(ScanState(aRing0, bRing0, joins0, out0)), 0, 0, prefilter, now)
    {
      hide Merged, JoinAt, EvaluateEdge, EdgeOf;
      aRing, bRing, joins, out := aRing0, bRing0, joins0, out0;
      var bj, ai := 0, 0;
      while ai < |aRing| && joins < MAX_JOINS_PER_CYCLE
        invariant 0 <= ai <= |aRing| == |aRing0| && Valid()
        invariant TwoPointerScan(ScanState(aRing, bRing, joins, out), ai, bj, prefilter, now)
                  == TwoPointerScan(old(ScanState(aRing0, bRing0, joins0, out0)), 0, 0, prefilter, now)
      {
        var a := aRing[ai];
        if a.record.time != 0 && |a.partners| < MAX_JOINS_PER_RECORD {
          var bk;
          bj, bk := FindPartner(a, bRing, bj, prefilter);
          if bk < |bRing| {
            aRing, bRing, joins, out := JoinPair(aRing, bRing, ai, bk, joins, out, now);
          }
        }
        ai := ai + 1;
      }
    }

    /** Sliding the lower end of the window forward, then trying the records inside it. */
    static method FindPartner(a: RingRecord, bRing: seq<RingRecord>, from: nat, prefilter: int)
      returns (bj: nat, bk: nat)
      ensures bj == Slide(bRing, from, a.record.time - prefilter)
      ensures bk == FirstInWindow(a, bRing, bj, a.record.time + prefilter)
    {
      hide EvaluateEdge;
      bj := from;
      while bj < |bRing| && (bRing[bj].record.time == 0 || bRing[bj].record.time < a.record.time - prefilter)
        invariant bj >= from && Slide(bRing, bj, a.record.time - prefilter)
                  == Slide(bRing, from, a.record.time - prefilter)
        decreases |bRing| - bj
      {
        bj := bj + 1;
      }
      bk := bj;
      while bk < |bRing| && bRing[bk].record.time <= a.record.time + prefilter
        invariant FirstInWindow(a, bRing, bk, a.record.time + prefilter)
                  == FirstInWindow(a, bRing, bj, a.record.time + prefilter)
        decreases |bRing| - bk
      {
        var b := bRing[bk];
        if |b.partners| < MAX_JOINS_PER_RECORD && b.id !in a.partners
          && EvaluateEdge(a.record, b.record, JOIN_WINDOW_MS).matched {
          return;
        }
        bk := bk + 1;
      }
      bk := |bRing|;
    }

    /** One cycle. `endpoints` and `order` are the iteration orders of the ring and group maps. */
    method TryCorrelate(now: int, endpoints: seq<string>, order: seq<nat>) returns (joined: seq<Revision>)
      requires Valid() && Enumerates(endpoints, byEndpoint.Keys) && Enumerates(order, groups.Keys)
      modifies this
      ensures Valid()
      ensures exists joins: nat ::
                Progress(Contents(), joins, joined) == Cycle(TwoPointer, old(Contents()), endpoints, order, now)
    {
      hide Merged, TwoPointerScan, ExpireFrom, PruneFrom, Enumerates;
      PruneStale(now, endpoints);
      joined := PruneStaleGroups(now, order);
      var joins: nat := 0;
      ghost var start := Progress(Contents(), joins, joined);
      var ea := 0;
      while ea < |endpoints| && joins < MAX_JOINS_PER_CYCLE
        invariant Valid() && ea >= 0
        invariant ScanFrom(TwoPointer, Progress(Contents(), joins, joined), endpoints, ea, ea + 1, now)
                  == ScanFrom(TwoPointer, start, endpoints, 0, 1, now)
        decreases |endpoints| - ea
      {
        var eb := ea + 1;
        while eb < |endpoints| && joins < MAX_JOINS_PER_CYCLE
          invariant Valid() && eb > ea
          invariant ScanFrom(TwoPointer, Progress(Contents(), joins, joined), endpoints, ea, eb, now)
                    == ScanFrom(TwoPointer, start, endpoints, 0, 1, now)
          decreases |endpoints| - eb
        {
          joins, joined := CorrelatePair(endpoints[ea], endpoints[eb], joins, joined, now);
          eb := eb + 1;
        }
        ea := ea + 1;
      }
      assert Progress(Contents(), joins, joined) == ScanFrom(TwoPointer, start, endpoints, 0, 1, now);
    }

    method CorrelatePair(e: string, f: string, joins0: nat, out0: seq<Revision>, now: int)
      returns (joins: nat, out: seq<Revision>)
      requires Valid()
      modifies this
      ensures Valid()
      ensures Progress(Contents(), joins, out)
              == ScanPair(TwoPointer, Progress(old(Contents()), joins0, out0), e, f, now)
    {
      hide Merged, TwoPointerScan;
      var aRing := if e in byEndpoint then byEndpoint[e] else [];
      var bRing := if f in byEndpoint then byEndpoint[f] else [];
      var prefilter := if e == "port" || f == "port" then PORT_PREFILTER_MS else JOIN_WINDOW_MS;
      aRing, bRing, joins, out := ScanRings(aRing, bRing, prefilter, joins0, out0, now);
      byEndpoint := byEndpoint[e := aRing][f := bRing];
    }
  }
}
