/** Identities of groups and places of records, as the list of pending groups changes. */
module UnifiedPlaces {
  import opened UnifiedSpec
  import opened UnifiedHistory

  // ---------------------------------------------------------------- group ids

  ghost predicate HasId(gs: seq<Group>, id: nat) { exists g <- gs :: g.id == id }

  predicate Ascending(gs: seq<Group>) { forall i, j :: 0 <= i < j < |gs| ==> gs[i].id < gs[j].id }

  predicate DistinctIds(gs: seq<Group>) { forall i, j :: 0 <= i < j < |gs| ==> gs[i].id != gs[j].id }

  /** Pending groups ascend by id, no id is ever handed out twice, and every id so far is below `nextId`. */
  ghost predicate IdsOk(groups: seq<Group>, out: seq<Group>, nextId: nat) {
    && Ascending(groups) && DistinctIds(out)
    && (forall g <- groups :: !HasId(out, g.id))
    && (forall g <- groups :: 0 < g.id < nextId)
    && (forall g <- out :: 0 < g.id < nextId)
    && 0 < nextId
  }

  lemma IdsReplace(groups: seq<Group>, out: seq<Group>, nextId: nat, i: nat, g: Group)
    requires IdsOk(groups, out, nextId) && i < |groups| && g.id == groups[i].id
    ensures IdsOk(groups[i := g], out, nextId)
    ensures forall id :: HasId(groups[i := g], id) <==> HasId(groups, id)
  {
    var groups' := groups[i := g];
    forall x <- groups' ensures !HasId(out, x.id) && 0 < x.id < nextId {
      assert groups[i] in groups;
    }
    forall id ensures HasId(groups', id) <==> HasId(groups, id) {
      if HasId(groups, id) {
        var j :| 0 <= j < |groups| && groups[j].id == id;
        assert groups'[j] in groups';
      }
      if HasId(groups', id) {
        var j :| 0 <= j < |groups'| && groups'[j].id == id;
        assert groups[j] in groups;
      }
    }
  }

  lemma WithoutMembers(groups: seq<Group>, i: nat)
    requires Ascending(groups) && i < |groups|
    ensures Ascending(Without(groups, i))
    ensures forall g <- Without(groups, i) :: g in groups && g.id != groups[i].id
  {
    var w := Without(groups, i);
    assert forall j :: 0 <= j < |w| ==> w[j] == if j < i then groups[j] else groups[j + 1];
  }

  lemma WithoutIds(groups: seq<Group>, i: nat)
    requires Ascending(groups) && i < |groups|
    ensures forall id :: HasId(Without(groups, i), id) <==> HasId(groups, id) && id != groups[i].id
  {
    WithoutMembers(groups, i);
    hide Ascending;
    forall id | HasId(groups, id) && id != groups[i].id ensures HasId(Without(groups, i), id) {
      StillThere(groups, i, id);
    }
  }

  lemma StillThere(groups: seq<Group>, i: nat, id: nat)
    requires i < |groups| && HasId(groups, id) && id != groups[i].id
    ensures HasId(Without(groups, i), id)
  {
    var j :| 0 <= j < |groups| && groups[j].id == id;
    var w := Without(groups, i);
    assert w[if j < i then j else j - 1] == groups[j];
  }

  lemma IdsDrop(groups: seq<Group>, out: seq<Group>, nextId: nat, i: nat)
    requires IdsOk(groups, out, nextId) && i < |groups|
    ensures IdsOk(Without(groups, i), out, nextId)
    ensures forall id :: HasId(Without(groups, i), id) <==> HasId(groups, id) && id != groups[i].id
    ensures forall g <- Without(groups, i) :: g in groups && g.id != groups[i].id
  {
    WithoutMembers(groups, i);
    WithoutIds(groups, i);
  }

  lemma IdsEmit(groups: seq<Group>, out: seq<Group>, nextId: nat, i: nat)
    requires IdsOk(groups, out, nextId) && i < |groups|
    ensures IdsOk(Without(groups, i), out + [groups[i]], nextId)
  {
    IdsDrop(groups, out, nextId, i);
    assert groups[i] in groups;
    forall j | 0 <= j < |out| ensures out[j].id != groups[i].id {
      assert out[j] in out;
    }
    forall g <- Without(groups, i) ensures !HasId(out + [groups[i]], g.id) {
      assert forall x <- out :: x.id == g.id ==> HasId(out, g.id);
    }
  }

  lemma IdsAppend(groups: seq<Group>, out: seq<Group>, nextId: nat, g: Group)
    requires IdsOk(groups, out, nextId) && g.id == nextId
    ensures IdsOk(groups + [g], out, nextId + 1)
    ensures forall id :: HasId(groups + [g], id) <==> HasId(groups, id) || id == nextId
  {
    var groups' := groups + [g];
    forall i, j | 0 <= i < j < |groups'| ensures groups'[i].id < groups'[j].id {
      assert groups'[i] in groups;
    }
    forall x <- groups' ensures !HasId(out, x.id) && 0 < x.id < nextId + 1 {
      assert forall y <- out :: y.id < nextId;
    }
    forall id | HasId(groups, id) || id == nextId ensures HasId(groups', id) {
      if HasId(groups, id) {
        var x :| x in groups && x.id == id;
        assert x in groups';
      } else {
        assert g in groups';
      }
    }
  }

  /** The group found under an id is the only one. */
  lemma OnlyOneWithId(groups: seq<Group>, i: nat, j: nat)
    requires Ascending(groups) && i < |groups| && j < |groups| && groups[i].id == groups[j].id
    ensures i == j
  {
  }

  // ---------------------------------------------------------------- places of records

  predicate Holds(ev: map<nat, seq<seq<nat>>>, id: nat, i: nat, k: nat) {
    id in ev && i < |ev[id]| && k in ev[id][i]
  }

  /** Record k is listed under exactly one member of exactly one group: its home. */
  ghost predicate HomesOk(ev: map<nat, seq<seq<nat>>>, home: seq<Slot>) {
    forall id: nat, i: nat, k: nat :: Holds(ev, id, i, k) <==> k < |home| && home[k] == Slot(id, i)
  }

  lemma HomeRepeat(ev: map<nat, seq<seq<nat>>>, home: seq<Slot>, id: nat, m: nat)
    requires HomesOk(ev, home) && id in ev && m < |ev[id]|
    ensures HomesOk(ev[id := ev[id][m := ev[id][m] + [|home|]]], home + [Slot(id, m)])
  {
    var ev', home' := ev[id := ev[id][m := ev[id][m] + [|home|]]], home + [Slot(id, m)];
    forall x: nat, i: nat, k: nat ensures Holds(ev', x, i, k) <==> k < |home'| && home'[k] == Slot(x, i) {
      assert Holds(ev, x, i, k) <==> k < |home| && home[k] == Slot(x, i);
      assert Holds(ev', x, i, k) <==> Holds(ev, x, i, k) || (x == id && i == m && k == |home|);
    }
  }

  /** A record that starts a new member at the end of group `id`, which may be new itself. */
  lemma HomeNewMember(ev: map<nat, seq<seq<nat>>>, home: seq<Slot>, id: nat)
    requires HomesOk(ev, home)
    ensures var before: seq<seq<nat>> := if id in ev then ev[id] else [];
            HomesOk(ev[id := before + [[|home|]]], home + [Slot(id, |before|)])
  {
    var before: seq<seq<nat>> := if id in ev then ev[id] else [];
    var ev', home' := ev[id := before + [[|home|]]], home + [Slot(id, |before|)];
    forall x: nat, i: nat, k: nat ensures Holds(ev', x, i, k) <==> k < |home'| && home'[k] == Slot(x, i) {
      assert Holds(ev, x, i, k) <==> k < |home| && home[k] == Slot(x, i);
      assert Holds(ev', x, i, k) <==> Holds(ev, x, i, k) || (x == id && i == |before| && k == |home|);
    }
  }

  /** Every record of `other` moves behind the members of `target`. */
  function Relocate(home: seq<Slot>, target: nat, other: nat, offset: nat): (r: seq<Slot>)
    ensures |r| == |home|
    ensures forall k :: 0 <= k < |home| ==>
      r[k] == if home[k].group == other then Slot(target, offset + home[k].member) else home[k]
  {
    seq(|home|, k requires 0 <= k < |home| =>
      if home[k].group == other then Slot(target, offset + home[k].member) else home[k])
  }

  function MergedEvidence(ev: map<nat, seq<seq<nat>>>, target: nat, other: nat): map<nat, seq<seq<nat>>>
    requires target in ev && other in ev
  {
    (ev - {other})[target := ev[target] + ev[other]]
  }

  lemma HomeMerge(ev: map<nat, seq<seq<nat>>>, home: seq<Slot>, target: nat, other: nat)
    requires HomesOk(ev, home) && target in ev && other in ev && target != other
    ensures HomesOk(MergedEvidence(ev, target, other), Relocate(home, target, other, |ev[target]|))
  {
    var ev', home' := MergedEvidence(ev, target, other), Relocate(home, target, other, |ev[target]|);
    var off := |ev[target]|;
    forall x: nat, i: nat, k: nat ensures Holds(ev', x, i, k) <==> k < |home'| && home'[k] == Slot(x, i) {
      assert Holds(ev, x, i, k) <==> k < |home| && home[k] == Slot(x, i);
      if x == target && i >= off {
        assert Holds(ev, other, i - off, k) <==> k < |home| && home[k] == Slot(other, i - off);
        assert Holds(ev', x, i, k) <==> Holds(ev, other, i - off, k);
      } else if x != other {
        assert Holds(ev', x, i, k) <==> Holds(ev, x, i, k);
      }
    }
  }

  // ---------------------------------------------------------------- totals

  function SumObserved(gs: seq<Group>): nat {
    if gs == [] then 0 else SumObserved(gs[..|gs| - 1]) + gs[|gs| - 1].recordsObserved
  }

  lemma {:induction false} SumAppend(gs: seq<Group>, hs: seq<Group>)
    ensures SumObserved(gs + hs) == SumObserved(gs) + SumObserved(hs)
  {
    if hs == [] {
      assert gs + hs == gs;
    } else {
      assert (gs + hs)[..|gs + hs| - 1] == gs + hs[..|hs| - 1];
      SumAppend(gs, hs[..|hs| - 1]);
    }
  }

  lemma {:induction false} SumSplit(gs: seq<Group>, i: nat)
    requires i < |gs|
    ensures SumObserved(gs) == SumObserved(Without(gs, i)) + gs[i].recordsObserved
    decreases |gs|
  {
    var front, w := gs[..|gs| - 1], Without(gs, i);
    if i == |gs| - 1 {
      assert w == front;
    } else {
      SumSplit(front, i);
      assert w[..|w| - 1] == Without(front, i);
    }
  }

  lemma SumReplace(gs: seq<Group>, i: nat, g: Group)
    requires i < |gs|
    ensures SumObserved(gs[i := g]) == SumObserved(gs) - gs[i].recordsObserved + g.recordsObserved
  {
    SumSplit(gs, i);
    SumSplit(gs[i := g], i);
    assert Without(gs[i := g], i) == Without(gs, i);
  }

  lemma SumOne(g: Group)
    ensures SumObserved([g]) == g.recordsObserved
  {
    assert [g][..0] == [];
  }
}
