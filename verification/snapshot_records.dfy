/** What a snapshot of an engine group tells about the records that were accepted. */
module SnapshotRecords {
  import opened Evidence
  import opened EvidenceGraph
  import opened UnifiedSpec
  import opened UnifiedHistory
  import opened UnifiedInvariant
  import opened UnifiedRuns
  import opened SnapshotSpec

  /** The member shows the first of the records it stands for, the times of the first and the last, and their number. */
  predicate MemberTells(m: MemberSnapshot, ks: seq<nat>, acc: seq<Arrival>) {
    && ks != [] && (forall i :: 0 <= i < |ks| ==> ks[i] < |acc|)
    && var first, last := acc[ks[0]], acc[ks[|ks| - 1]];
       && m.endpoint == first.record.endpoint && m.recordType == first.record.recordType
       && m.pid == first.record.pid && m.parentPid == first.record.parentPid
       && m.nativeSourceFile == first.record.nativeSourceFile && m.nativeRecordId == first.record.nativeRecordId
       && m.rawLine == first.record.rawLine
       && m.firstSeen == first.eventMs && m.lastSeen == last.eventMs && m.repeatCount == |ks|
  }

  /** The connection shows the edge, within two seconds, between a record of its
      earlier member and the first record of its later one. */
  predicate EdgeTells(c: ConnectionSnapshot, a: Record, b: Record) {
    var e := EvaluateEdge(a, b, 2000);
    && e.matched && a.endpoint != b.endpoint && c.reason == e.reason && c.matchedFields == e.matchedFields
    && c.delta == e.delta && c.confidence == e.confidence && c.score == e.score && c.caveat == e.caveat
  }

  ghost predicate ConnectionTells(c: ConnectionSnapshot, e: seq<seq<nat>>, acc: seq<Arrival>) {
    && c.from < c.to < |e| && e[c.to] != [] && e[c.to][0] < |acc|
    && exists k :: k in e[c.from] && k < |acc| && EdgeTells(c, acc[k].record, acc[e[c.to][0]].record)
  }

  /** The times of the group are the earliest first sighting and the latest of all. */
  ghost predicate TimesTell(t: GroupSnapshot, e: seq<seq<nat>>, acc: seq<Arrival>) {
    && (forall m <- t.members :: t.firstSeen <= m.firstSeen) && (exists m <- t.members :: t.firstSeen == m.firstSeen)
    && (forall i, k :: 0 <= i < |e| && k in e[i] && k < |acc| ==> acc[k].eventMs <= t.lastSeen)
    && exists i, k :: 0 <= i < |e| && k in e[i] && k < |acc| && acc[k].eventMs == t.lastSeen
  }

  function TotalShown(ms: seq<MemberSnapshot>): nat {
    if ms == [] then 0 else TotalShown(ms[..|ms| - 1]) + ms[|ms| - 1].repeatCount
  }

  ghost predicate GroupTells(t: GroupSnapshot, e: seq<seq<nat>>, acc: seq<Arrival>) {
    && |t.members| == |e| && (forall i :: 0 <= i < |e| ==> MemberTells(t.members[i], e[i], acc))
    && (forall c <- t.connections :: ConnectionTells(c, e, acc))
    && TimesTell(t, e, acc) && t.recordsObserved == TotalShown(t.members) && (t.connected <==> |e| > 1)
    && forall i, k :: 0 <= i < |e| && k in e[i] && k < |acc| ==> acc[k].operational == t.operationalOnly
  }

  lemma MemberShown(m: Member, ks: seq<nat>, acc: seq<Arrival>)
    requires MemberBacked(m, ks, acc)
    ensures MemberTells(MemberToSnapshot(m), ks, acc)
  {
  }

  lemma ConnectionShown(c: Connection, ms: seq<Member>, e: seq<seq<nat>>, acc: seq<Arrival>)
    requires ConnectionBacked(c, ms, e, acc) && c.from < c.to && MemberBacked(ms[c.to], e[c.to], acc)
    ensures ConnectionTells(ConnectionToSnapshot(c), e, acc)
  {
    hide EvaluateEdge;
    var k :| k in e[c.from] && k < |acc| && EdgeBetween(acc[k].record, ms[c.to].first, c.edge);
    assert EdgeTells(ConnectionToSnapshot(c), acc[k].record, acc[e[c.to][0]].record);
  }

  lemma {:induction false} TotalIsShown(ms: seq<Member>, ts: seq<MemberSnapshot>)
    requires |ts| == |ms| && forall i :: 0 <= i < |ms| ==> ts[i] == MemberToSnapshot(ms[i])
    ensures TotalShown(ts) == TotalRepeats(ms)
  {
    if ms != [] { TotalIsShown(ms[..|ms| - 1], ts[..|ts| - 1]); }
  }

  lemma TimesShown(g: Group, e: seq<seq<nat>>, acc: seq<Arrival>)
    requires TimesBacked(g.members, g.firstSeen, g.lastSeen, e, acc)
    ensures TimesTell(ToSnapshot(g), e, acc)
  {
    var t := ToSnapshot(g);
    forall m | m in t.members ensures t.firstSeen <= m.firstSeen {
      var i :| 0 <= i < |t.members| && t.members[i] == m;
      assert g.members[i] in g.members;
    }
    var m :| m in g.members && g.firstSeen == m.firstSeen;
    var i :| 0 <= i < |g.members| && g.members[i] == m;
    assert t.members[i] in t.members;
  }

  /** The snapshot of every group of the engine, pending or handed out, tells what the records it stands for say. */
  lemma SnapshotTellsRecords(s: UnifiedSpec.State, h: History, g: Group)
    requires Inv(s, h) && Known(s, h, g)
    ensures g.id in h.evidence && GroupTells(ToSnapshot(g), h.evidence[g.id], h.accepted)
    ensures ToSnapshot(g).id == g.id
  {
    hide Inv, GroupBacked, Known, GroupTells;
    KnownIsBacked(s, h, g);
    BackedIsTold(g, h.evidence[g.id], h.accepted);
  }

  lemma BackedIsTold(g: Group, e: seq<seq<nat>>, acc: seq<Arrival>)
    requires GroupBacked(g, e, acc)
    ensures GroupTells(ToSnapshot(g), e, acc)
  {
    hide MemberBacked, ConnectionBacked, MemberTells, ConnectionTells, TimesBacked, TimesTell, SpanningTree,
         TotalRepeats, TotalShown;
    var t := ToSnapshot(g);
    forall i | 0 <= i < |e| ensures MemberTells(t.members[i], e[i], acc) { MemberShown(g.members[i], e[i], acc); }
    TreeIsForward(g.connections, |g.members|);
    forall c | c in t.connections ensures ConnectionTells(c, e, acc) {
      var j :| 0 <= j < |t.connections| && t.connections[j] == c;
      assert g.connections[j] in g.connections;
      ConnectionShown(g.connections[j], g.members, e, acc);
    }
    TotalIsShown(g.members, t.members);
    TimesShown(g, e, acc);
  }
}
