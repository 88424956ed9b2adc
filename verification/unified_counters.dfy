/** The counters that the engine reports: every line is counted once, every accepted record is a member or a compacted
    repeat, every group forced out is counted as a capacity flush. */
module UnifiedCounters {
  import opened Text
  import opened Evidence
  import opened UnifiedSpec
  import opened UnifiedHistory
  import opened UnifiedPlaces
  import opened UnifiedSteps
  import opened UnifiedMerge
  import opened UnifiedJoin
  import opened UnifiedInvariant
  import opened UnifiedRuns

  // ---------------------------------------------------------------- members of all groups

  function SumMembers(gs: seq<Group>): nat {
    if gs == [] then 0 else SumMembers(gs[..|gs| - 1]) + |gs[|gs| - 1].members|
  }

  lemma {:induction false} MembersAppend(gs: seq<Group>, hs: seq<Group>)
    ensures SumMembers(gs + hs) == SumMembers(gs) + SumMembers(hs)
  {
    if hs == [] {
      assert gs + hs == gs;
    } else {
      assert (gs + hs)[..|gs + hs| - 1] == gs + hs[..|hs| - 1];
      MembersAppend(gs, hs[..|hs| - 1]);
    }
  }

  lemma MembersOne(g: Group)
    ensures SumMembers([g]) == |g.members|
  {
    assert [g][..0] == [];
  }

  lemma {:induction false} MembersSplit(gs: seq<Group>, i: nat)
    requires i < |gs|
    ensures SumMembers(gs) == SumMembers(Without(gs, i)) + |gs[i].members|
    decreases |gs|
  {
    var front, w := gs[..|gs| - 1], Without(gs, i);
    if i == |gs| - 1 {
      assert w == front;
    } else {
      MembersSplit(front, i);
      assert w[..|w| - 1] == Without(front, i);
    }
  }

  lemma MembersReplace(gs: seq<Group>, i: nat, g: Group)
    requires i < |gs|
    ensures SumMembers(gs[i := g]) == SumMembers(gs) - |gs[i].members| + |g.members|
  {
    MembersSplit(gs, i);
    MembersSplit(gs[i := g], i);
    assert Without(gs[i := g], i) == Without(gs, i);
  }

  /** Members and compacted repeats of everything the engine still holds. */
  function Standing(s: State): nat { SumMembers(s.groups) + SumMembers(s.forced) + s.n.repeats }

  /** Groups forced out are counted as flushes and as emitted; arrivals are not counted here. */
  predicate FlushesCounted(s: State, s': State) {
    && s.forced <= s'.forced
    && s'.n.capacityFlushes == s.n.capacityFlushes + (|s'.forced| - |s.forced|)
    && s'.n.emitted == s.n.emitted + (|s'.forced| - |s.forced|)
    && s'.n.accepted == s.n.accepted && s'.n.duplicates == s.n.duplicates && s'.n.parseFailures == s.n.parseFailures
  }

  // ---------------------------------------------------------------- the ways to place a record

  lemma ForceOutStands(s: State, i: nat)
    requires i < |s.groups|
    ensures Standing(ForceOut(s, i)) == Standing(s) && FlushesCounted(s, ForceOut(s, i))
    ensures ForceOut(s, i).forced == s.forced + [s.groups[i]]
  {
    hide SumMembers;
    MembersSplit(s.groups, i);
    MembersAppend(s.forced, [s.groups[i]]);
    MembersOne(s.groups[i]);
  }

  lemma AppendStands(s: State, a: Arrival)
    ensures Standing(Append(s, a)) == Standing(s) + 1 && FlushesCounted(s, Append(s, a))
  {
    hide SumMembers;
    MembersAppend(s.groups, [NewGroup(s.nextId, a)]);
    MembersOne(NewGroup(s.nextId, a));
  }

  lemma OpenStands(s: State, a: Arrival)
    ensures Standing(Open(s, a)) == Standing(s) + 1 && FlushesCounted(s, Open(s, a))
  {
    hide Standing, Append, ForceOut;
    if |s.groups| >= MAX_PENDING_GROUPS {
      ForceOutStands(s, OldestIndex(s.groups));
      AppendStands(ForceOut(s, OldestIndex(s.groups)), a);
    } else {
      AppendStands(s, a);
    }
  }

  lemma RepeatStands(s: State, g: nat, m: nat, a: Arrival)
    requires g < |s.groups| && m < |s.groups[g].members|
    ensures Standing(Repeat(s, g, m, a)) == Standing(s) + 1 && FlushesCounted(s, Repeat(s, g, m, a))
  {
    hide SumMembers;
    MembersReplace(s.groups, g, Compacted(s.groups[g], m, a));
  }

  /** A merge moves members and keeps the target. */
  lemma MergeOneStands(m: Merging, target: nat, c: Candidate)
    requires IndexOf(m.groups, target).Some?
    ensures SumMembers(MergeOne(m, target, c).groups) == SumMembers(m.groups)
    ensures IndexOf(MergeOne(m, target, c).groups, target).Some?
  {
    hide SumMembers;
    var t, o := IndexOf(m.groups, target).value, IndexOf(m.groups, c.groupId);
    if o.Some? && c.groupId != target {
      var merged := Absorbed(m.groups[t], m.groups[o.value]);
      var replaced := m.groups[t := merged];
      MembersReplace(m.groups, t, merged);
      MembersSplit(replaced, o.value);
      StillThereAfter(replaced, t, o.value);
    }
  }

  lemma StillThereAfter(gs: seq<Group>, t: nat, o: nat)
    requires t < |gs| && o < |gs| && t != o
    ensures IndexOf(Without(gs, o), gs[t].id).Some?
  {
    var rest := Without(gs, o);
    assert rest[if t < o then t else t - 1] == gs[t];
  }

  lemma {:induction false} MergeAllStands(m: Merging, target: nat, cs: seq<Candidate>)
    requires IndexOf(m.groups, target).Some?
    ensures SumMembers(MergeAll(m, target, cs).groups) == SumMembers(m.groups)
    ensures IndexOf(MergeAll(m, target, cs).groups, target).Some?
  {
    hide SumMembers, MergeOne;
    if cs != [] {
      MergeAllStands(m, target, cs[..|cs| - 1]);
      MergeOneStands(MergeAll(m, target, cs[..|cs| - 1]), target, cs[|cs| - 1]);
    }
  }

  lemma JoinStands(s: State, a: Arrival, cs: seq<Candidate>)
    requires cs != [] && IndexOf(s.groups, cs[0].groupId).Some?
    ensures Standing(JoinStories(s, a, cs)) == Standing(s) + 1 && FlushesCounted(s, JoinStories(s, a, cs))
  {
    hide SumMembers, MergeAll, ForceOut, Append, Extended;
    var target := cs[0].groupId;
    MergeAllStands(StartMerge(s, cs[0]), target, cs[1..]);
    var m := MergeAll(StartMerge(s, cs[0]), target, cs[1..]);
    var s' := s.(groups := m.groups, n := s.n.(connectionLimit := m.limited));
    var t := IndexOf(m.groups, target).value;
    if |m.groups[t].members| >= MAX_MEMBERS {
      ForceOutStands(s', t);
      AppendStands(ForceOut(s', t), a);
    } else {
      ExtendedMembers(m.groups[t], a, m.bridges, cs[0].edge);
      MembersReplace(m.groups, t, Extended(m.groups[t], a, m.bridges, cs[0].edge));
    }
  }

  lemma ExtendedMembers(g: Group, a: Arrival, bridges: seq<Bridge>, incoming: Edge)
    ensures |Extended(g, a, bridges, incoming).members| == |g.members| + 1
  {
  }

  lemma CandidateIsPending(c: Candidate, groups: seq<Group>, r: Record)
    requires CandidateOk(c, groups, r) && Ascending(groups)
    ensures IndexOf(groups, c.groupId).Some?
  {
    hide Strongest, BestOf, Usable;
    var t := CandidateIndex(c, groups, r);
    CandidateNames(c, groups[t], r);
  }

  lemma KeptAscending(s: State, h: History)
    requires Kept(s.groups, Out(s, h), s.nextId, h)
    ensures Ascending(s.groups)
  {
    CoreParts(s.groups, Out(s, h), s.nextId, h);
  }

  /** Placing a record adds one member or one compacted repeat, and counts what it forces out. */
  lemma PlaceStands(sorter: seq<Candidate> -> seq<Candidate>, s: State, h: History, a: Arrival)
    requires IsSorter(sorter) && Kept(s.groups, Out(s, h), s.nextId, h)
    ensures Standing(Place(sorter, s, a)) == Standing(s) + 1 && FlushesCounted(s, Place(sorter, s, a))
  {
    hide Kept, Open, JoinStories, FindRepeat, Candidates, Repeat, Standing, FlushesCounted, CandidateOk;
    var repeat: Option<(nat, nat)> := if a.operational then None else FindRepeat(s.groups, a, 0);
    var raw := if a.operational then [] else Candidates(s.groups, a.record);
    var cs := sorter(raw);
    assert multiset(cs) == multiset(raw);
    if repeat.Some? {
      RepeatStands(s, repeat.value.0, repeat.value.1, a);
    } else if cs == [] {
      OpenStands(s, a);
    } else {
      MultisetEmpty(raw, cs);
      SortedCandidates(s, h, a, cs);
      KeptAscending(s, h);
      CandidateIsPending(cs[0], s.groups, a.record);
      JoinStands(s, a, cs);
    }
  }

  // ---------------------------------------------------------------- one line, one drain

  function Seen(n: Counters): nat { n.accepted + n.duplicates + n.parseFailures }

  /** One line: an empty one changes nothing; any other is counted once, as accepted, as a duplicate or as a parse
      failure; an accepted one adds one member or repeat; and every group forced out is counted as a flush. */
  lemma LineIsCounted(sorter: seq<Candidate> -> seq<Candidate>, s: State, h: History, endpoint: string, line: string,
                      wall: int)
    requires IsSorter(sorter) && Inv(s, h)
    ensures var r := Ingest(sorter, s, endpoint, line, wall);
            && (line == "" ==> r.0 == s)
            && (line != "" ==> Seen(r.0.n) == Seen(s.n) + 1)
            && r.0.n.accepted == s.n.accepted + (if r.1 then 1 else 0)
            && Standing(r.0) == Standing(s) + (if r.1 then 1 else 0)
            && s.forced <= r.0.forced && r.0.n.capacityFlushes == s.n.capacityFlushes + (|r.0.forced| - |s.forced|)
  {
    hide Kept, CountsOk, WindowOk, Place, Observe, LooksLikeObject, ExactIdentity;
    if line != "" && LooksLikeObject(line) { AcceptStands(sorter, s, h, Observe(endpoint, line, wall)); }
  }

  lemma AcceptStands(sorter: seq<Candidate> -> seq<Candidate>, s: State, h: History, a: Arrival)
    requires IsSorter(sorter) && Kept(s.groups, Out(s, h), s.nextId, h)
    ensures var r := Accept(sorter, s, a);
            && Seen(r.0.n) == Seen(s.n) + 1 && r.0.n.accepted == s.n.accepted + (if r.1 then 1 else 0)
            && Standing(r.0) == Standing(s) + (if r.1 then 1 else 0)
            && s.forced <= r.0.forced && r.0.n.capacityFlushes == s.n.capacityFlushes + (|r.0.forced| - |s.forced|)
  {
    hide Kept, Place, ExactIdentity, Trim;
    if ExactIdentity(a.record) !in s.recent {
      var s1 := Remember(s, ExactIdentity(a.record));
      var s2 := s1.(n := s1.n.(accepted := s1.n.accepted + 1, represented := s1.n.represented + 1));
      PlaceStands(sorter, s2, h, a);
    }
  }

  lemma {:induction false} PartedMembers(groups: seq<Group>, now: int, force: bool)
    ensures SumMembers(groups) == SumMembers(DueOf(groups, now, force)) + SumMembers(KeptOf(groups, now, force))
  {
    hide Due;
    if groups != [] {
      var front, g := groups[..|groups| - 1], groups[|groups| - 1];
      PartedMembers(front, now, force);
      MembersAppend(DueOf(front, now, force), [g]);
      MembersAppend(KeptOf(front, now, force), [g]);
      MembersOne(g);
    }
  }

  lemma {:induction false} CountAllOnly(n: Counters, gs: seq<Group>)
    ensures var n' := CountAll(n, gs);
            n' == n.(emitted := n'.emitted, single := n'.single, connected := n'.connected)
  {
    if gs != [] { CountAllOnly(n, gs[..|gs| - 1]); }
  }

  /** A drain hands out as many members as it takes away, and counts no line. */
  lemma DrainStands(s: State, now: int, force: bool)
    ensures var r := Drain(s, now, force);
            Standing(s) == Standing(r.0) + SumMembers(r.1) && Seen(r.0.n) == Seen(s.n) && r.0.n.accepted == s.n.accepted
  {
    hide Due, DueOf, KeptOf, CountAll, SumMembers;
    PartedMembers(s.groups, now, force);
    CountAllOnly(s.n, DueOf(s.groups, now, force));
    MembersAppend(s.forced, DueOf(s.groups, now, force));
    assert SumMembers([]) == 0 by { NoMembers(); }
  }

  lemma NoMembers()
    ensures SumMembers([]) == 0
  {
  }

  // ---------------------------------------------------------------- whole runs

  function LinesIn(events: seq<Event>): nat {
    if events == [] then 0
    else LinesIn(events[..|events| - 1])
         + if events[|events| - 1].Line? && events[|events| - 1].line != "" then 1 else 0
  }

  /** Over every run: each non-empty line was accepted, suppressed as a duplicate or counted as a parse failure;
      and each accepted record is a member of a pending, forced-out or handed-out group or a compacted repeat. */
  lemma {:induction false} EveryLineIsCounted(sorter: seq<Candidate> -> seq<Candidate>, events: seq<Event>)
    requires IsSorter(sorter)
    ensures var r := Run(sorter, events);
            && r.0.n.accepted + r.0.n.duplicates + r.0.n.parseFailures == LinesIn(events)
            && r.0.n.accepted == SumMembers(r.0.groups) + SumMembers(r.0.forced) + SumMembers(r.1) + r.0.n.repeats
    decreases |events|
  {
    hide Inv, Ingest, Drain, IsSorter, SumMembers;
    if events == [] {
      NoMembers();
    } else {
      var before := Run(sorter, events[..|events| - 1]);
      EveryLineIsCounted(sorter, events[..|events| - 1]);
      var h := EveryRunKeeps(sorter, events[..|events| - 1]);
      match events[|events| - 1]
      case Line(endpoint, line, wall) => LineIsCounted(sorter, before.0, h, endpoint, line, wall);
      case Drained(now, force) =>
        DrainStands(before.0, now, force);
        MembersAppend(before.1, Drain(before.0, now, force).1);
    }
  }
}
