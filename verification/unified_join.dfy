/** One record joining the stories it matches: the merge loop, then the new member or the full-group flush. */
module UnifiedJoin {
  import opened Text
  import opened Evidence
  import opened EvidenceGraph
  import opened UnifiedSpec
  import opened UnifiedHistory
  import opened UnifiedPlaces
  import opened UnifiedSteps
  import opened UnifiedMerge
  import opened UnifiedAbsorb

  /** The group a candidate names. */
  lemma CandidateIndex(c: Candidate, groups: seq<Group>, r: Record) returns (i: nat)
    requires CandidateOk(c, groups, r) && Ascending(groups)
    ensures i < |groups| && IndexOf(groups, c.groupId) == Some(i)
    ensures CandidateIn(c, groups[i], r) && !groups[i].operationalOnly
  {
    var g :| g in groups && CandidateIn(c, g, r) && !g.operationalOnly;
    i :| 0 <= i < |groups| && groups[i] == g;
    IndexFound(groups, i);
  }

  lemma OtherBacked(groups: seq<Group>, h: History, t: nat, o: nat)
    requires t < |groups| && o < |groups| && groups[o].id != groups[t].id
    requires AllBackedBut(groups, h, groups[t].id)
    ensures groups[o].id in h.evidence && GroupBacked(groups[o], h.evidence[groups[o].id], h.accepted)
  {
    assert groups[o] in groups;
  }

  /** Candidates for groups that an absorption does not touch stay good. */
  lemma CandidatesSurvive(groups: seq<Group>, t: nat, o: nat, r: Record)
    requires Ascending(groups) && t < |groups| && o < |groups| && t != o
    ensures forall d: Candidate :: CandidateOk(d, groups, r) && d.groupId != groups[t].id && d.groupId != groups[o].id
              ==> CandidateOk(d, AbsorbAt(groups, t, o), r)
  {
    hide UsableMatch, EdgeTo, Absorbed;
    var groups' := AbsorbAt(groups, t, o);
    forall d: Candidate | CandidateOk(d, groups, r) && d.groupId != groups[t].id && d.groupId != groups[o].id
      ensures CandidateOk(d, groups', r)
    {
      var g :| g in groups && CandidateIn(d, g, r) && !g.operationalOnly;
      var i :| 0 <= i < |groups| && groups[i] == g;
      assert groups'[if i < o then i else i - 1] == g;
    }
  }

  /** Where the target sits after group o is gone. */
  lemma TargetMoves(groups: seq<Group>, t: nat, o: nat) returns (t': nat)
    requires t < |groups| && o < |groups| && t != o
    ensures t' < |AbsorbAt(groups, t, o)| && AbsorbAt(groups, t, o)[t'] == Absorbed(groups[t], groups[o])
  {
    hide Absorbed;
    t' := if o < t then t - 1 else t;
  }

  lemma MergeOneKeeps(m: Merging, t: nat, out: seq<Group>, nextId: nat, h: History, a: Arrival, c: Candidate)
    returns (h': History, t': nat)
    requires Merged(m, t, out, nextId, h, a)
    requires c.groupId != m.groups[t].id && CandidateOk(c, m.groups, a.record)
    ensures Merged(MergeOne(m, m.groups[t].id, c), t', out, nextId, h', a)
    ensures MergeOne(m, m.groups[t].id, c).groups[t'].id == m.groups[t].id
    ensures h'.accepted == h.accepted && h'.emitted == h.emitted
    ensures forall d: Candidate ::
              CandidateOk(d, m.groups, a.record) && d.groupId != m.groups[t].id && d.groupId != c.groupId
              ==> CandidateOk(d, MergeOne(m, m.groups[t].id, c).groups, a.record)
  {
    hide Core, AllBackedBut, TargetBacked, GroupBacked, CandidateIn, Absorbed, CandidateOk;
    var groups, target := m.groups, m.groups[t].id;
    CoreParts(groups, out, nextId, h);
    var o := CandidateIndex(c, groups, a.record);
    IndexFound(groups, t);
    CandidateNames(c, groups[o], a.record);
    OtherBacked(groups, h, t, o);
    if |groups[t].members| + |groups[o].members| + 1 > MAX_MEMBERS {
      h', t' := h, t;
    } else {
      h' := AbsorbKeepsCore(groups, out, nextId, h, t, o);
      t' := TargetMoves(groups, t, o);
      AbsorbedFacts(groups[t], groups[o]);
      TargetAbsorbs(groups[t], m.bridges, h.evidence[target], groups[o], h.evidence[groups[o].id], h.accepted, a, c);
      CandidatesSurvive(groups, t, o, a.record);
    }
  }

  lemma CandidateNames(c: Candidate, g: Group, r: Record)
    requires CandidateIn(c, g, r)
    ensures c.groupId == g.id
  {
  }

  /** The whole merge loop: every remaining candidate is absorbed or counted as over the limit. */
  lemma {:induction false} MergeAllKeeps(m: Merging, t: nat, out: seq<Group>, nextId: nat, h: History, a: Arrival,
                                         cs: seq<Candidate>) returns (h': History, t': nat)
    requires Merged(m, t, out, nextId, h, a) && Distinct(cs)
    requires forall c <- cs :: c.groupId != m.groups[t].id && CandidateOk(c, m.groups, a.record)
    ensures Merged(MergeAll(m, m.groups[t].id, cs), t', out, nextId, h', a)
    ensures MergeAll(m, m.groups[t].id, cs).groups[t'].id == m.groups[t].id
    ensures h'.accepted == h.accepted && h'.emitted == h.emitted
    ensures forall d: Candidate :: CandidateOk(d, m.groups, a.record) && d.groupId != m.groups[t].id
              && (forall c <- cs :: c.groupId != d.groupId)
              ==> CandidateOk(d, MergeAll(m, m.groups[t].id, cs).groups, a.record)
    decreases |cs|
  {
    hide Core, AllBackedBut, TargetBacked, CandidateIn, CandidateOk, MergeOne;
    if cs == [] { return h, t; }
    var front, last, target := cs[..|cs| - 1], cs[|cs| - 1], m.groups[t].id;
    h', t' := MergeAllKeeps(m, t, out, nextId, h, a, front);
    assert last in cs;
    assert forall c <- front :: c in cs && c.groupId != last.groupId;
    var mid := MergeAll(m, target, front);
    h', t' := MergeOneKeeps(mid, t', out, nextId, h', a, last);
  }

  /** A forest with a single bridge is already a tree. */
  lemma OneBridgeIsTree(cs: seq<Connection>, n: nat, bridges: seq<Bridge>)
    requires RootedForest(cs, n, bridges) && |bridges| == 1
    ensures SpanningTree(cs, n)
  {
    forall v: nat | v < n ensures Linked(cs, v, bridges[0].from) {
      assert Rooted(cs, v, bridges);
    }
    ConnectedThroughHub(cs, n, bridges[0].from);
  }

  /** A group that is already full when the record arrives absorbed nothing, so it is still a whole story. */
  lemma FullTargetIsWhole(m: Merging, t: nat, out: seq<Group>, nextId: nat, h: History, a: Arrival)
    requires Merged(m, t, out, nextId, h, a) && |m.groups[t].members| >= MAX_MEMBERS
    ensures Kept(m.groups, out, nextId, h)
  {
    hide Core, RecordsBacked, RootedForest, SpanningTree;
    var g := m.groups[t];
    OneBridgeIsTree(g.connections, |g.members|, m.bridges);
    MergedAscending(m, t, out, nextId, h, a);
    forall x <- m.groups ensures x.id in h.evidence && GroupBacked(x, h.evidence[x.id], h.accepted) {
      var i :| 0 <= i < |m.groups| && m.groups[i] == x;
      if x.id == g.id { OnlyOneWithId(m.groups, i, t); }
    }
  }

  lemma MergedAscending(m: Merging, t: nat, out: seq<Group>, nextId: nat, h: History, a: Arrival)
    requires Merged(m, t, out, nextId, h, a)
    ensures Ascending(m.groups)
  {
  }

  lemma StartKeeps(s: State, out: seq<Group>, h: History, a: Arrival, c: Candidate) returns (t: nat)
    requires Kept(s.groups, out, s.nextId, h) && CandidateOk(c, s.groups, a.record)
    ensures Merged(StartMerge(s, c), t, out, s.nextId, h, a) && s.groups[t].id == c.groupId
  {
    hide Core, GroupBacked, TargetBacked, CandidateIn, AllBackedBut;
    CoreParts(s.groups, out, s.nextId, h);
    t := CandidateIndex(c, s.groups, a.record);
    CandidateNames(c, s.groups[t], a.record);
    KeptGroup(s.groups, out, s.nextId, h, t);
    StartTarget(s.groups[t], h.evidence[c.groupId], h.accepted, a, c);
  }

  lemma JoinTarget(m: Merging, t: nat, out: seq<Group>, nextId: nat, h: History, a: Arrival, incoming: Edge)
    returns (h': History)
    requires Merged(m, t, out, nextId, h, a) && |m.groups[t].members| < MAX_MEMBERS
    requires Marked(a) && !a.operational
    ensures h'.accepted == h.accepted + [a] && h'.emitted == h.emitted
    ensures Kept(m.groups[t := Extended(m.groups[t], a, m.bridges, incoming)], out, nextId, h')
  {
    hide Core, RecordsBacked, RootedForest, AllBackedBut, BridgeBacked;
    h' := ExtendKeeps(m.groups, out, nextId, h, t, a, m.bridges, incoming);
  }

  /** Joining keeps every group whole and places the record exactly once. */
  lemma JoinKeeps(s: State, h: History, a: Arrival, cs: seq<Candidate>) returns (h': History)
    requires Kept(s.groups, h.emitted + s.forced, s.nextId, h) && Marked(a) && !a.operational
    requires cs != [] && Distinct(cs) && forall c <- cs :: CandidateOk(c, s.groups, a.record)
    ensures h'.accepted == h.accepted + [a] && h'.emitted == h.emitted
    ensures var s' := JoinStories(s, a, cs); Kept(s'.groups, h.emitted + s'.forced, s'.nextId, h')
  {
    hide Core, AllBackedBut, TargetBacked, CandidateOk, MergeAll, NewGroup, Extended, AllBacked, AllBackedBut;
    var out := h.emitted + s.forced;
    assert forall c <- cs[1..] :: c in cs && c.groupId != cs[0].groupId;
    var t := StartKeeps(s, out, h, a, cs[0]);
    var m := MergeAll(StartMerge(s, cs[0]), cs[0].groupId, cs[1..]);
    var h1, t1 := MergeAllKeeps(StartMerge(s, cs[0]), t, out, s.nextId, h, a, cs[1..]);
    MergedAscending(m, t1, out, s.nextId, h1, a);
    IndexFound(m.groups, t1);
    CoreParts(s.groups, out, s.nextId, h);
    IndexFound(s.groups, t);
    if |m.groups[t1].members| >= MAX_MEMBERS {
      FullTargetIsWhole(m, t1, out, s.nextId, h1, a);
      EmitKeeps(m.groups, out, s.nextId, h1, t1);
      assert out + [m.groups[t1]] == h.emitted + (s.forced + [m.groups[t1]]);
      h' := AppendKeeps(Without(m.groups, t1), out + [m.groups[t1]], s.nextId, h1, a);
    } else {
      h' := JoinTarget(m, t1, out, s.nextId, h1, a, cs[0].edge);
    }
  }
}
