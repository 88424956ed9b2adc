/** The elementary changes the engine makes to its pending groups, and what each of them keeps. */
module UnifiedSteps {
  import opened Evidence
  import opened EvidenceGraph
  import opened UnifiedSpec
  import opened UnifiedHistory
  import opened UnifiedPlaces

  ghost predicate AllBacked(gs: seq<Group>, h: History) {
    forall g <- gs :: g.id in h.evidence && GroupBacked(g, h.evidence[g.id], h.accepted)
  }

  /** All but the group that is being merged into. */
  ghost predicate AllBackedBut(gs: seq<Group>, h: History, target: nat) {
    forall g <- gs :: g.id != target ==> g.id in h.evidence && GroupBacked(g, h.evidence[g.id], h.accepted)
  }

  /** What holds of pending groups `groups` and handed-out groups `out`, apart from the pending groups' contents. */
  ghost predicate Core(groups: seq<Group>, out: seq<Group>, nextId: nat, h: History) {
    && IdsOk(groups, out, nextId)
    && (forall id :: id in h.evidence <==> HasId(groups, id) || HasId(out, id))
    && AllBacked(out, h)
    && HomesOk(h.evidence, h.home) && |h.home| == |h.accepted|
    && (forall a <- h.accepted :: Marked(a))
    && SumObserved(groups) + SumObserved(out) == |h.accepted|
  }

  ghost predicate Kept(groups: seq<Group>, out: seq<Group>, nextId: nat, h: History) {
    Core(groups, out, nextId, h) && AllBacked(groups, h)
  }

  // ---------------------------------------------------------------- untouched groups

  lemma BackedGrows(g: Group, e: seq<seq<nat>>, acc: seq<Arrival>, a: Arrival)
    requires GroupBacked(g, e, acc)
    ensures GroupBacked(g, e, acc + [a])
  {
    RecordsBackedGrows(g, e, acc, a);
  }

  /** Groups whose evidence did not change stay backed when a record is accepted. */
  lemma Untouched(gs: seq<Group>, h: History, h': History, a: Arrival)
    requires h'.accepted == h.accepted + [a]
    requires AllBacked(gs, h)
    requires forall g <- gs :: g.id in h'.evidence && h'.evidence[g.id] == h.evidence[g.id]
    ensures AllBacked(gs, h')
  {
    hide GroupBacked;
    forall g <- gs ensures g.id in h'.evidence && GroupBacked(g, h'.evidence[g.id], h'.accepted) {
      BackedGrows(g, h.evidence[g.id], h.accepted, a);
    }
  }

  lemma Unmoved(gs: seq<Group>, h: History, h': History)
    requires h'.accepted == h.accepted && AllBacked(gs, h)
    requires forall g <- gs :: g.id in h'.evidence && h'.evidence[g.id] == h.evidence[g.id]
    ensures AllBacked(gs, h')
  {
    hide GroupBacked;
  }

  lemma OutIdsDiffer(groups: seq<Group>, out: seq<Group>, nextId: nat, i: nat)
    requires IdsOk(groups, out, nextId) && i < |groups|
    ensures forall g <- out :: g.id != groups[i].id
    ensures HasId(groups, groups[i].id)
  {
    assert groups[i] in groups;
    forall g <- out ensures g.id != groups[i].id {
      assert HasId(out, g.id);
    }
  }

  lemma ReplacedMembers(groups: seq<Group>, i: nat, g: Group)
    requires Ascending(groups) && i < |groups| && g.id == groups[i].id
    ensures forall x <- groups[i := g] :: x == g || (x in groups && x.id != g.id)
  {
    var groups' := groups[i := g];
    forall x <- groups' ensures x == g || (x in groups && x.id != g.id) {
      var j :| 0 <= j < |groups'| && groups'[j] == x;
      if j != i { assert groups[j] == x; }
    }
  }

  // ---------------------------------------------------------------- the steps

  /** A record changes one pending group: by repeating one of its members or by joining as a new one. */
  lemma ChangeOne(groups: seq<Group>, out: seq<Group>, nextId: nat, h: History, h': History, i: nat, g: Group,
                  a: Arrival)
    requires Core(groups, out, nextId, h) && i < |groups| && g.id == groups[i].id
    requires AllBackedBut(groups, h, g.id) && Marked(a)
    requires h'.accepted == h.accepted + [a] && h'.emitted == h.emitted
    requires g.id in h'.evidence && h'.evidence == h.evidence[g.id := h'.evidence[g.id]]
    requires HomesOk(h'.evidence, h'.home) && |h'.home| == |h'.accepted|
    requires GroupBacked(g, h'.evidence[g.id], h'.accepted)
    requires g.recordsObserved == groups[i].recordsObserved + 1
    ensures Kept(groups[i := g], out, nextId, h')
  {
    hide GroupBacked, Marked, HomesOk, IdsOk, SumObserved, HasId;
    IdsOfCore(groups, out, nextId, h);
    IdsReplace(groups, out, nextId, i, g);
    OutIdsDiffer(groups, out, nextId, i);
    Untouched(out, h, h', a);
    SumReplace(groups, i, g);
    ChangedBacked(groups, h, h', i, g, a);
  }

  lemma IdsOfCore(groups: seq<Group>, out: seq<Group>, nextId: nat, h: History)
    requires Core(groups, out, nextId, h)
    ensures IdsOk(groups, out, nextId) && Ascending(groups)
  {
  }

  lemma ChangedBacked(groups: seq<Group>, h: History, h': History, i: nat, g: Group, a: Arrival)
    requires Ascending(groups) && i < |groups| && g.id == groups[i].id && AllBackedBut(groups, h, g.id)
    requires h'.accepted == h.accepted + [a]
    requires g.id in h'.evidence && h'.evidence == h.evidence[g.id := h'.evidence[g.id]]
    requires GroupBacked(g, h'.evidence[g.id], h'.accepted)
    ensures AllBacked(groups[i := g], h')
  {
    hide GroupBacked;
    ReplacedMembers(groups, i, g);
    forall x <- groups[i := g] ensures x.id in h'.evidence && GroupBacked(x, h'.evidence[x.id], h'.accepted) {
      if x != g {
        BackedGrows(x, h.evidence[x.id], h.accepted, a);
      }
    }
  }

  lemma AscendingOf(groups: seq<Group>, out: seq<Group>, nextId: nat)
    requires IdsOk(groups, out, nextId)
    ensures Ascending(groups)
  {
  }

  lemma CoreParts(groups: seq<Group>, out: seq<Group>, nextId: nat, h: History)
    requires Core(groups, out, nextId, h)
    ensures IdsOk(groups, out, nextId) && Ascending(groups)
    ensures HomesOk(h.evidence, h.home) && |h.home| == |h.accepted|
    ensures forall a <- h.accepted :: Marked(a)
  {
  }

  lemma KeptGroup(groups: seq<Group>, out: seq<Group>, nextId: nat, h: History, i: nat)
    requires Kept(groups, out, nextId, h) && i < |groups|
    ensures groups[i].id in h.evidence
    ensures GroupBacked(groups[i], h.evidence[groups[i].id], h.accepted)
    ensures AllBackedBut(groups, h, groups[i].id)
  {
    assert groups[i] in groups;
  }

  lemma BackedParts(g: Group, e: seq<seq<nat>>, acc: seq<Arrival>)
    requires GroupBacked(g, e, acc)
    ensures RecordsBacked(g, e, acc) && SpanningTree(g.connections, |g.members|)
    ensures |e| == |g.members| && 0 < |e| <= MAX_MEMBERS
  {
  }

  lemma RepeatKeeps(groups: seq<Group>, out: seq<Group>, nextId: nat, h: History, i: nat, m: nat, a: Arrival)
    returns (h': History)
    requires Kept(groups, out, nextId, h) && i < |groups| && m < |groups[i].members|
    requires Repeats(groups[i].members[m], a) && !a.operational && Marked(a)
    ensures h'.accepted == h.accepted + [a] && h'.emitted == h.emitted
    ensures Kept(groups[i := Compacted(groups[i], m, a)], out, nextId, h')
  {
    hide GroupBacked, RecordsBacked, SpanningTree, Marked, Core, HomesOk, Repeats, AllBackedBut;
    var g := groups[i];
    KeptGroup(groups, out, nextId, h, i);
    CoreParts(groups, out, nextId, h);
    var e := h.evidence[g.id];
    BackedParts(g, e, h.accepted);
    RepeatIsActivity(g, e, h.accepted, m, a);
    CompactedBacked(g, e, h.accepted, m, a);
    h' := History(h.accepted + [a], h.evidence[g.id := e[m := e[m] + [|h.accepted|]]],
                  h.home + [Slot(g.id, m)], h.emitted);
    HomeRepeat(h.evidence, h.home, g.id, m);
    ChangeOne(groups, out, nextId, h, h', i, Compacted(g, m, a), a);
  }

  lemma ExtendKeeps(groups: seq<Group>, out: seq<Group>, nextId: nat, h: History, i: nat, a: Arrival,
                    bridges: seq<Bridge>, incoming: Edge) returns (h': History)
    requires Core(groups, out, nextId, h) && i < |groups|
    requires AllBackedBut(groups, h, groups[i].id) && Marked(a) && !a.operational
    requires groups[i].id in h.evidence && RecordsBacked(groups[i], h.evidence[groups[i].id], h.accepted)
    requires !groups[i].operationalOnly && |groups[i].members| < MAX_MEMBERS
    requires RootedForest(groups[i].connections, |groups[i].members|, bridges)
    requires forall b <- bridges :: BridgeBacked(b, h.evidence[groups[i].id], h.accepted, a)
    ensures h'.accepted == h.accepted + [a] && h'.emitted == h.emitted
    ensures Kept(groups[i := Extended(groups[i], a, bridges, incoming)], out, nextId, h')
  {
    hide GroupBacked, RecordsBacked, SpanningTree, Marked, Core, HomesOk, AllBackedBut, RootedForest, BridgeBacked;
    var g := groups[i];
    CoreParts(groups, out, nextId, h);
    var e := h.evidence[g.id];
    ExtendedGroup(g, e, h.accepted, a, bridges, incoming);
    h' := History(h.accepted + [a], h.evidence[g.id := NewLast(e, |h.accepted|)], h.home + [Slot(g.id, |e|)],
                  h.emitted);
    HomeNewMember(h.evidence, h.home, g.id);
    ChangeOne(groups, out, nextId, h, h', i, Extended(g, a, bridges, incoming), a);
  }

  lemma ExtendedGroup(g: Group, e: seq<seq<nat>>, acc: seq<Arrival>, a: Arrival, bridges: seq<Bridge>, incoming: Edge)
    requires RecordsBacked(g, e, acc) && !g.operationalOnly && !a.operational && |g.members| < MAX_MEMBERS
    requires RootedForest(g.connections, |g.members|, bridges)
    requires forall b <- bridges :: BridgeBacked(b, e, acc, a)
    ensures GroupBacked(Extended(g, a, bridges, incoming), NewLast(e, |acc|), acc + [a])
  {
    hide RecordsBacked, SpanningTree, RootedForest, BridgeBacked;
    ExtendedBacked(g, e, acc, a, bridges, incoming);
    ForestBecomesTree(g.connections, |g.members|, bridges);
  }

  lemma AppendKeeps(groups: seq<Group>, out: seq<Group>, nextId: nat, h: History, a: Arrival) returns (h': History)
    requires Kept(groups, out, nextId, h) && Marked(a)
    ensures h'.accepted == h.accepted + [a] && h'.emitted == h.emitted
    ensures Kept(groups + [NewGroup(nextId, a)], out, nextId + 1, h')
  {
    h' := History(h.accepted + [a], h.evidence[nextId := [[|h.accepted|]]], h.home + [Slot(nextId, 0)], h.emitted);
    hide GroupBacked, Marked, HomesOk, IdsOk, HasId, SumObserved, NewGroup;
    AppendKeepsCore(groups, out, nextId, h, h', a);
    AppendKeepsBacked(groups, out, nextId, h, h', a);
  }

  lemma AppendKeepsCore(groups: seq<Group>, out: seq<Group>, nextId: nat, h: History, h': History, a: Arrival)
    requires Kept(groups, out, nextId, h) && Marked(a)
    requires h' == History(h.accepted + [a], h.evidence[nextId := [[|h.accepted|]]], h.home + [Slot(nextId, 0)],
                           h.emitted)
    ensures Core(groups + [NewGroup(nextId, a)], out, nextId + 1, h')
  {
    hide GroupBacked, Marked, HomesOk, IdsOk, HasId;
    var g := NewGroup(nextId, a);
    CoreParts(groups, out, nextId, h);
    FreshId(groups, out, nextId);
    NewGroupHome(h.evidence, h.home, nextId);
    IdsAppend(groups, out, nextId, g);
    SumAppend(groups, [g]);
    SumOne(g);
    Untouched(out, h, h', a);
  }

  lemma AppendKeepsBacked(groups: seq<Group>, out: seq<Group>, nextId: nat, h: History, h': History, a: Arrival)
    requires Kept(groups, out, nextId, h)
    requires h' == History(h.accepted + [a], h.evidence[nextId := [[|h.accepted|]]], h.home + [Slot(nextId, 0)],
                           h.emitted)
    ensures AllBacked(groups + [NewGroup(nextId, a)], h')
  {
    hide GroupBacked, Marked, HomesOk, IdsOk, HasId, SumObserved;
    var g := NewGroup(nextId, a);
    CoreParts(groups, out, nextId, h);
    FreshId(groups, out, nextId);
    NewGroupBacked(nextId, a, h.accepted);
    Untouched(groups, h, h', a);
  }

  lemma NewGroupHome(ev: map<nat, seq<seq<nat>>>, home: seq<Slot>, id: nat)
    requires HomesOk(ev, home) && id !in ev
    ensures HomesOk(ev[id := [[|home|]]], home + [Slot(id, 0)])
  {
    var none: seq<seq<nat>> := [];
    assert none + [[|home|]] == [[|home|]];
    HomeNewMember(ev, home, id);
  }

  lemma FreshId(groups: seq<Group>, out: seq<Group>, nextId: nat)
    requires IdsOk(groups, out, nextId)
    ensures !HasId(groups, nextId) && !HasId(out, nextId)
    ensures forall g <- groups :: g.id != nextId
    ensures forall g <- out :: g.id != nextId
  {
  }

  lemma EmitKeeps(groups: seq<Group>, out: seq<Group>, nextId: nat, h: History, i: nat)
    requires Kept(groups, out, nextId, h) && i < |groups|
    ensures Kept(Without(groups, i), out + [groups[i]], nextId, h)
  {
    hide GroupBacked, Marked, HomesOk, IdsOk, HasId, SumObserved;
    var g := groups[i];
    CoreParts(groups, out, nextId, h);
    KeptGroup(groups, out, nextId, h, i);
    IdsEmit(groups, out, nextId, i);
    IdsDrop(groups, out, nextId, i);
    HasOwnId(groups, i);
    SumSplit(groups, i);
    SumAppend(out, [g]);
    SumOne(g);
    HasIdAppend(out, g);
  }

  lemma HasOwnId(groups: seq<Group>, i: nat)
    requires i < |groups|
    ensures HasId(groups, groups[i].id)
  {
    assert groups[i] in groups;
  }

  lemma HasIdAppend(out: seq<Group>, g: Group)
    ensures forall id :: HasId(out + [g], id) <==> HasId(out, id) || id == g.id
  {
    assert g in out + [g];
    forall id | HasId(out, id) ensures HasId(out + [g], id) {
      var x :| x in out && x.id == id;
      assert x in out + [g];
    }
  }
}
