/** Every line and every drain keeps the engine's invariant; what the invariant says about records and groups. */
module UnifiedTheorems {
  import opened UnifiedSpec
  import opened UnifiedHistory
  import opened UnifiedPlaces
  import opened UnifiedSteps
  import opened UnifiedInvariant

  // ---------------------------------------------------------------- one line

  /** Why a line is not accepted: it is empty, it is not an object, or its identity is among the last 8192 accepted. */
  ghost predicate Refused(line: string, a: Arrival, acc: seq<Arrival>) {
    || line == "" || !LooksLikeObject(line)
    || exists k :: WindowStart(|acc|) <= k < |acc| && ExactIdentity(acc[k].record) == ExactIdentity(a.record)
  }

  lemma InWindow(recent: set<string>, order: seq<string>, acc: seq<Arrival>, id: string)
    requires WindowOk(recent, order, acc)
    ensures id in recent <==> exists k :: WindowStart(|acc|) <= k < |acc| && ExactIdentity(acc[k].record) == id
  {
    hide ExactIdentity;
    var w := WindowStart(|acc|);
    if id in recent {
      var i :| 0 <= i < |order| && order[i] == id;
      assert Identities(acc)[w + i] == id;
    }
    if k :| w <= k < |acc| && ExactIdentity(acc[k].record) == id {
      assert order[k - w] == id;
    }
  }

  lemma AcceptKeeps(sorter: seq<Candidate> -> seq<Candidate>, s: State, h: History, a: Arrival) returns (h': History)
    requires IsSorter(sorter) && Inv(s, h) && Marked(a)
    ensures Inv(Accept(sorter, s, a).0, h') && h'.emitted == h.emitted
    ensures Accept(sorter, s, a).1 <==> ExactIdentity(a.record) !in s.recent
    ensures h'.accepted == if Accept(sorter, s, a).1 then h.accepted + [a] else h.accepted
  {
    hide Kept, CountsOk, WindowOk, Remember, Place, Recounted, IsSorter, ExactIdentity, Marked;
    h' := h;
    var id := ExactIdentity(a.record);
    if id !in s.recent {
      var s1 := Remember(s, id);
      var s2 := s1.(n := s1.n.(accepted := s1.n.accepted + 1, represented := s1.n.represented + 1));
      RememberOnly(s, id);
      RememberKeepsWindow(s, h.accepted, a);
      CountsCarry(s.n, s2.n, Out(s, h));
      h' := PlaceKeeps(sorter, s2, h, a);
      RecountedKeepsCounts(s2, Place(sorter, s2, a), h);
      RecountedParts(s2, Place(sorter, s2, a));
    }
    CountsCarry(s.n, s.n.(duplicates := s.n.duplicates + 1), Out(s, h));
  }

  lemma RememberOnly(s: State, id: string)
    ensures Remember(s, id) == s.(recent := Remember(s, id).recent, order := Remember(s, id).order)
  {
  }

  lemma CountsCarry(n: Counters, n': Counters, out: seq<Group>)
    requires CountsOk(n, out) && SameTotals(n, n')
    ensures CountsOk(n', out)
  {
  }

  lemma RecountedParts(s: State, s': State)
    requires Recounted(s, s')
    ensures s'.recent == s.recent && s'.order == s.order
    ensures s'.n.accepted == s.n.accepted && s'.n.represented == s.n.represented
  {
  }

  /** One line keeps the invariant. It is accepted unless it is refused, an accepted record is appended to the history,
      and nothing is handed out. */
  lemma IngestKeeps(sorter: seq<Candidate> -> seq<Candidate>, s: State, h: History, endpoint: string, line: string,
                    wall: int)
    returns (h': History)
    requires IsSorter(sorter) && Inv(s, h)
    ensures var r := Ingest(sorter, s, endpoint, line, wall); var a := Observe(endpoint, line, wall);
            && Inv(r.0, h') && h'.emitted == h.emitted
            && (r.1 <==> !Refused(line, a, h.accepted))
            && h'.accepted == (if r.1 then h.accepted + [a] else h.accepted)
  {
    hide Kept, CountsOk, WindowOk, Accept, IsSorter, ExactIdentity, Observe, LooksLikeObject;
    var a := Observe(endpoint, line, wall);
    h' := h;
    if line != "" {
      if LooksLikeObject(line) {
        FingerprintsTellKindsApart(endpoint, line, wall);
        h' := AcceptKeeps(sorter, s, h, a);
        InWindow(s.recent, s.order, h.accepted, ExactIdentity(a.record));
      } else {
        CountsCarry(s.n, s.n.(parseFailures := s.n.parseFailures + 1), Out(s, h));
      }
    }
  }

  // ---------------------------------------------------------------- one drain

  lemma {:induction false} PartitionedMembers(groups: seq<Group>, now: int, force: bool)
    ensures forall g :: g in DueOf(groups, now, force) <==> g in groups && Due(g, now, force)
    ensures forall g :: g in KeptOf(groups, now, force) <==> g in groups && !Due(g, now, force)
  {
    if groups == [] { return; }
    var front, g := groups[..|groups| - 1], groups[|groups| - 1];
    hide Due;
    PartitionedMembers(front, now, force);
    assert groups == front + [g];
  }

  /** The due and the kept groups are the two halves of the pending list, each still in id order. */
  lemma {:induction false} Partitioned(groups: seq<Group>, now: int, force: bool)
    requires Ascending(groups)
    ensures Ascending(DueOf(groups, now, force)) && Ascending(KeptOf(groups, now, force))
    ensures forall g :: g in DueOf(groups, now, force) <==> g in groups && Due(g, now, force)
    ensures forall g :: g in KeptOf(groups, now, force) <==> g in groups && !Due(g, now, force)
  {
    PartitionedMembers(groups, now, force);
    if groups == [] { return; }
    var front, g := groups[..|groups| - 1], groups[|groups| - 1];
    hide Due;
    Partitioned(front, now, force);
    assert forall x <- front :: x.id < g.id;
    AscendingPlus(DueOf(front, now, force), g);
    AscendingPlus(KeptOf(front, now, force), g);
  }

  lemma AscendingPlus(gs: seq<Group>, g: Group)
    requires Ascending(gs) && forall x <- gs :: x.id < g.id
    ensures Ascending(gs + [g])
  {
  }

  lemma {:induction false} PartitionedSums(groups: seq<Group>, now: int, force: bool)
    ensures SumObserved(DueOf(groups, now, force)) + SumObserved(KeptOf(groups, now, force)) == SumObserved(groups)
    ensures |KeptOf(groups, now, force)| <= |groups|
    ensures force ==> KeptOf(groups, now, force) == []
  {
    if groups == [] { return; }
    var front, g := groups[..|groups| - 1], groups[|groups| - 1];
    PartitionedSums(front, now, force);
    assert groups == front + [g];
    SumAppend(DueOf(front, now, force), [g]);
    SumAppend(KeptOf(front, now, force), [g]);
    SumOne(g);
  }

  /** A drain hands out everything forced out earlier, then exactly the due groups in id order, each once;
      exactly the others stay pending. A forced drain leaves nothing. */
  lemma DrainKeeps(s: State, h: History, now: int, force: bool) returns (h': History)
    requires Inv(s, h)
    ensures var r := Drain(s, now, force);
            && h' == h.(emitted := h.emitted + r.1) && Inv(r.0, h') && r.0.forced == []
            && (forall g :: g in r.0.groups <==> g in s.groups && !Due(g, now, force))
            && (force ==> r.0.groups == [])
  {
    hide Due, Core, GroupBacked, CountsOk, WindowOk, DueOf, KeptOf;
    var due, kept := DueOf(s.groups, now, force), KeptOf(s.groups, now, force);
    h' := h.(emitted := h.emitted + (s.forced + due));
    assert Out(s, h) + due == h'.emitted && h'.emitted + [] == h'.emitted;
    CoreParts(s.groups, Out(s, h), s.nextId, h);
    Partitioned(s.groups, now, force);
    PartitionedSums(s.groups, now, force);
    DrainedKept(s.groups, Out(s, h), s.nextId, h, h', due, kept);
    CountsManyMore(s.n, Out(s, h), due);
    CountAllKeeps(s.n, due);
  }

  lemma DrainedKept(groups: seq<Group>, out: seq<Group>, nextId: nat, h: History, h': History, due: seq<Group>,
                    kept: seq<Group>)
    requires Kept(groups, out, nextId, h) && Ascending(due) && Ascending(kept)
    requires forall g :: g in groups <==> g in due || g in kept
    requires forall g :: !(g in due && g in kept)
    requires SumObserved(due) + SumObserved(kept) == SumObserved(groups)
    requires h' == h.(emitted := h'.emitted)
    ensures Kept(kept, out + due, nextId, h')
  {
    hide GroupBacked, HomesOk, Marked, IdsOk, HasId;
    CoreParts(groups, out, nextId, h);
    DrainedIds(groups, out, nextId, due, kept);
    SumAppend(out, due);
    DrainedBacked(groups, out, h, h', due, kept);
  }

  lemma {:induction false} CountAllKeeps(n: Counters, gs: seq<Group>)
    ensures CountAll(n, gs).accepted == n.accepted && CountAll(n, gs).represented == n.represented
  {
    if gs != [] { CountAllKeeps(n, gs[..|gs| - 1]); }
  }

  lemma DrainedIds(groups: seq<Group>, out: seq<Group>, nextId: nat, due: seq<Group>, kept: seq<Group>)
    requires IdsOk(groups, out, nextId) && Ascending(due) && Ascending(kept)
    requires forall g :: g in groups <==> g in due || g in kept
    requires forall g :: !(g in due && g in kept)
    ensures IdsOk(kept, out + due, nextId)
    ensures forall id :: HasId(kept, id) || HasId(out + due, id) <==> HasId(groups, id) || HasId(out, id)
  {
    SameIdSameGroup(groups);
    forall g <- kept ensures !HasId(out + due, g.id) {
      assert g in groups && !HasId(out, g.id);
      forall x <- out + due ensures x.id != g.id {
        assert x in out ==> HasId(out, x.id);
      }
    }
    forall i, j | 0 <= i < j < |out + due| ensures (out + due)[i].id != (out + due)[j].id {
      if i < |out| <= j {
        assert due[j - |out|] in groups && !HasId(out, due[j - |out|].id);
        assert out[i] in out;
      }
    }
    forall id ensures HasId(kept, id) || HasId(out + due, id) <==> HasId(groups, id) || HasId(out, id) {
      HasIdSplit(out, due, id);
    }
  }

  lemma SameIdSameGroup(groups: seq<Group>)
    requires Ascending(groups)
    ensures forall g <- groups, g' <- groups :: g.id == g'.id ==> g == g'
  {
  }

  lemma HasIdSplit(out: seq<Group>, due: seq<Group>, id: nat)
    ensures HasId(out + due, id) <==> HasId(out, id) || HasId(due, id)
  {
    if HasId(out, id) {
      var g :| g in out && g.id == id;
      assert g in out + due;
    }
    if HasId(due, id) {
      var g :| g in due && g.id == id;
      assert g in out + due;
    }
  }

  lemma DrainedBacked(groups: seq<Group>, out: seq<Group>, h: History, h': History, due: seq<Group>, kept: seq<Group>)
    requires AllBacked(groups, h) && AllBacked(out, h)
    requires h'.evidence == h.evidence && h'.accepted == h.accepted
    requires forall g :: g in groups <==> g in due || g in kept
    ensures AllBacked(kept, h') && AllBacked(out + due, h')
  {
    hide GroupBacked;
  }
}
