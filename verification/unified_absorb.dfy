/** Merging the stories a new record matches: each absorbed group brings its members, its tree and its records. */
module UnifiedAbsorb {
  import opened Text
  import opened Evidence
  import opened EvidenceGraph
  import opened UnifiedSpec
  import opened UnifiedHistory
  import opened UnifiedPlaces
  import opened UnifiedSteps
  import opened UnifiedMerge

  // ---------------------------------------------------------------- candidates as bridges

  /** A candidate's edge was evaluated against a record that sits in the member it names. */
  lemma CandidateBridge(c: Candidate, g: Group, e: seq<seq<nat>>, acc: seq<Arrival>, a: Arrival)
    requires CandidateIn(c, g, a.record) && MembersBacked(g.members, e, acc, g.operationalOnly)
    ensures BridgeBacked(Bridge(c.memberIndex, c.edge), e, acc, a)
  {
    hide EvaluateEdge, Usable;
    var ks := e[c.memberIndex];
    assert MemberBacked(g.members[c.memberIndex], ks, acc);
    var k := ks[|ks| - 1];
    assert k in ks && g.members[c.memberIndex].last == acc[k].record;
    assert EdgeBetween(acc[k].record, a.record, c.edge);
  }

  lemma BridgeKept(b: Bridge, e: seq<seq<nat>>, f: seq<seq<nat>>, acc: seq<Arrival>, a: Arrival)
    requires BridgeBacked(b, e, acc, a)
    ensures BridgeBacked(b, e + f, acc, a)
  {
    var k :| k in e[b.from] && k < |acc| && EdgeBetween(acc[k].record, a.record, b.edge);
    assert k in (e + f)[b.from];
  }

  lemma BridgeMoved(b: Bridge, e: seq<seq<nat>>, f: seq<seq<nat>>, acc: seq<Arrival>, a: Arrival)
    requires BridgeBacked(b, f, acc, a)
    ensures BridgeBacked(Bridge(|e| + b.from, b.edge), e + f, acc, a)
  {
    var k :| k in f[b.from] && k < |acc| && EdgeBetween(acc[k].record, a.record, b.edge);
    assert k in (e + f)[|e| + b.from];
  }

  // ---------------------------------------------------------------- the merge target

  ghost predicate TargetBacked(g: Group, bridges: seq<Bridge>, e: seq<seq<nat>>, acc: seq<Arrival>, a: Arrival) {
    && RecordsBacked(g, e, acc) && !g.operationalOnly
    && RootedForest(g.connections, |g.members|, bridges)
    && (forall b <- bridges :: BridgeBacked(b, e, acc, a))
    && (|bridges| > 1 ==> |g.members| < MAX_MEMBERS)
  }

  /** One absorbed group: its records, its place in the forest and its bridge. */
  lemma TargetAbsorbs(t: Group, bridges: seq<Bridge>, e: seq<seq<nat>>, o: Group, f: seq<seq<nat>>,
                      acc: seq<Arrival>, a: Arrival, c: Candidate)
    requires TargetBacked(t, bridges, e, acc, a) && bridges != []
    requires GroupBacked(o, f, acc) && !o.operationalOnly && CandidateIn(c, o, a.record)
    requires |t.members| + |o.members| < MAX_MEMBERS
    ensures TargetBacked(Absorbed(t, o), bridges + [Bridge(|t.members| + c.memberIndex, c.edge)], e + f, acc, a)
  {
    hide RecordsBacked, RootedForest, BridgeBacked, SpanningTree, UsableMatch, EdgeTo;
    var b := Bridge(c.memberIndex, c.edge);
    AbsorbedBacked(t, o, e, f, acc);
    ForestsJoined(t.connections, |t.members|, bridges, o.connections, |o.members|, b);
    CandidateOfBacked(c, o, f, acc, a);
    SameLength(t, e, acc);
    forall x <- bridges ensures BridgeBacked(x, e + f, acc, a) {
      BridgeKept(x, e, f, acc, a);
    }
    BridgeMoved(b, e, f, acc, a);
  }

  lemma SameLength(g: Group, e: seq<seq<nat>>, acc: seq<Arrival>)
    requires RecordsBacked(g, e, acc)
    ensures |e| == |g.members|
  {
  }

  lemma CandidateOfBacked(c: Candidate, g: Group, e: seq<seq<nat>>, acc: seq<Arrival>, a: Arrival)
    requires CandidateIn(c, g, a.record) && RecordsBacked(g, e, acc)
    ensures BridgeBacked(Bridge(c.memberIndex, c.edge), e, acc, a)
  {
    CandidateBridge(c, g, e, acc, a);
  }

  lemma StartTarget(g: Group, e: seq<seq<nat>>, acc: seq<Arrival>, a: Arrival, c: Candidate)
    requires GroupBacked(g, e, acc) && !g.operationalOnly && CandidateIn(c, g, a.record)
    ensures TargetBacked(g, [Bridge(c.memberIndex, c.edge)], e, acc, a)
  {
    hide RecordsBacked, RootedForest, BridgeBacked, SpanningTree, UsableMatch, EdgeTo;
    CandidateOfBacked(c, g, e, acc, a);
    TreeIsRooted(g.connections, |g.members|, Bridge(c.memberIndex, c.edge));
  }

  // ---------------------------------------------------------------- the whole state during a merge

  /** `t` is where the target sits among the groups. */
  ghost predicate Merged(m: Merging, t: nat, out: seq<Group>, nextId: nat, h: History, a: Arrival) {
    && t < |m.groups| && m.bridges != []
    && Core(m.groups, out, nextId, h) && AllBackedBut(m.groups, h, m.groups[t].id)
    && m.groups[t].id in h.evidence
    && TargetBacked(m.groups[t], m.bridges, h.evidence[m.groups[t].id], h.accepted, a)
  }

  lemma IndexFound(groups: seq<Group>, i: nat)
    requires Ascending(groups) && i < |groups|
    ensures IndexOf(groups, groups[i].id) == Some(i)
  {
    var r := IndexOf(groups, groups[i].id);
    OnlyOneWithId(groups, if r.Some? then r.value else i, i);
  }

  function AbsorbAt(groups: seq<Group>, t: nat, o: nat): seq<Group>
    requires t < |groups| && o < |groups|
  {
    Without(groups[t := Absorbed(groups[t], groups[o])], o)
  }

  /** The pending list after an absorption: one group changed, one gone, nothing else. */
  lemma AbsorbedList(groups: seq<Group>, out: seq<Group>, nextId: nat, t: nat, o: nat)
    requires IdsOk(groups, out, nextId) && t < |groups| && o < |groups| && t != o
    ensures IdsOk(AbsorbAt(groups, t, o), out, nextId)
    ensures forall id :: HasId(AbsorbAt(groups, t, o), id) <==> HasId(groups, id) && id != groups[o].id
    ensures forall x <- AbsorbAt(groups, t, o) ::
              x == Absorbed(groups[t], groups[o])
              || (x in groups && x.id != groups[t].id && x.id != groups[o].id)
  {
    hide HasId, Absorbed;
    var g := Absorbed(groups[t], groups[o]);
    AbsorbedFacts(groups[t], groups[o]);
    IdsReplace(groups, out, nextId, t, g);
    AscendingOf(groups, out, nextId);
    ReplacedMembers(groups, t, g);
    hide IdsOk, SumObserved;
    IdsDrop(groups[t := g], out, nextId, o);
  }

  lemma AbsorbedSum(groups: seq<Group>, t: nat, o: nat)
    requires t < |groups| && o < |groups| && t != o
    ensures SumObserved(AbsorbAt(groups, t, o)) == SumObserved(groups)
  {
    var g := Absorbed(groups[t], groups[o]);
    SumReplace(groups, t, g);
    SumSplit(groups[t := g], o);
  }

  lemma AbsorbedFacts(t: Group, o: Group)
    ensures Absorbed(t, o).id == t.id
    ensures Absorbed(t, o).recordsObserved == t.recordsObserved + o.recordsObserved
  {
  }

  /** Absorbing group o into group t, for everything but the contents of the merged group. */
  lemma AbsorbKeepsCore(groups: seq<Group>, out: seq<Group>, nextId: nat, h: History, t: nat, o: nat)
    returns (h': History)
    requires Core(groups, out, nextId, h) && t < |groups| && o < |groups| && t != o
    requires AllBackedBut(groups, h, groups[t].id)
    requires groups[t].id in h.evidence && groups[o].id in h.evidence
    ensures h' == History(h.accepted, MergedEvidence(h.evidence, groups[t].id, groups[o].id), h'.home, h.emitted)
    ensures Core(AbsorbAt(groups, t, o), out, nextId, h') && AllBackedBut(AbsorbAt(groups, t, o), h', groups[t].id)
  {
    hide GroupBacked, Marked, HomesOk, IdsOk, HasId, AbsorbAt, Absorbed, MergedEvidence;
    CoreParts(groups, out, nextId, h);
    var target, other := groups[t].id, groups[o].id;
    assert target != other;
    h' := History(h.accepted, MergedEvidence(h.evidence, target, other),
                  Relocate(h.home, target, other, |h.evidence[target]|), h.emitted);
    HomeMerge(h.evidence, h.home, target, other);
    AbsorbedList(groups, out, nextId, t, o);
    AbsorbedSum(groups, t, o);
    AbsorbedFacts(groups[t], groups[o]);
    HasOwnId(groups, t);
    OutIdsDiffer(groups, out, nextId, t);
    OutIdsDiffer(groups, out, nextId, o);
    OutHasNot(out, other);
    MergedKeys(h.evidence, target, other);
    Unmoved(out, h, h');
  }

  lemma OutHasNot(out: seq<Group>, id: nat)
    requires forall g <- out :: g.id != id
    ensures !HasId(out, id)
  {
  }

  lemma MergedKeys(ev: map<nat, seq<seq<nat>>>, target: nat, other: nat)
    requires target in ev && other in ev && target != other
    ensures forall id :: id in MergedEvidence(ev, target, other) <==> id in ev && id != other
    ensures forall id :: id in ev && id != other && id != target ==> MergedEvidence(ev, target, other)[id] == ev[id]
  {
  }
}
