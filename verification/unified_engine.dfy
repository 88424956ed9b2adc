/** CORRELATOR/unified_stream_engine.cpp in its own form: an object whose loops update its fields,
    each method proved equal to the function of the same step. */
module UnifiedEngine {
  import opened Text
  import opened Evidence
  import opened UnifiedSpec
  import opened UnifiedHistory
  import opened UnifiedPlaces
  import opened UnifiedInvariant
  import opened UnifiedTheorems
  import opened UnifiedDrain

  lemma AbsentIds(groups: seq<Group>)
    ensures forall id :: IndexOf(groups, id).None? <==> !HasId(groups, id)
  {
    forall id ensures IndexOf(groups, id).None? <==> !HasId(groups, id) {
      var r := IndexOf(groups, id);
      if r.Some? { assert groups[r.value] in groups; }
    }
  }

  /** A merge step keeps the list in order, brings no id back, and removes the absorbed one. */
  lemma AfterMerge(m: Merging, target: nat, c: Candidate)
    requires Ascending(m.groups)
    ensures Ascending(MergeOne(m, target, c).groups)
    ensures forall id :: IndexOf(m.groups, id).None? ==> IndexOf(MergeOne(m, target, c).groups, id).None?
    ensures IndexOf(m.groups, target).Some? ==> IndexOf(MergeOne(m, target, c).groups, target).Some?
    ensures |MergeOne(m, target, c).groups| < |m.groups| ==> IndexOf(MergeOne(m, target, c).groups, c.groupId).None?
  {
    hide Absorbed, HasId, Without, Ascending;
    var t, o := IndexOf(m.groups, target), IndexOf(m.groups, c.groupId);
    if t.Some? && o.Some? && c.groupId != target {
      var g := Absorbed(m.groups[t.value], m.groups[o.value]);
      var replaced := m.groups[t.value := g];
      KeepsId(m.groups[t.value], m.groups[o.value]);
      SameIds(m.groups, t.value, g);
      WithoutMembers(replaced, o.value);
      WithoutIds(replaced, o.value);
      AbsentIds(m.groups);
      AbsentIds(Without(replaced, o.value));
    }
  }

  lemma SameIds(groups: seq<Group>, i: nat, g: Group)
    requires Ascending(groups) && i < |groups| && g.id == groups[i].id
    ensures Ascending(groups[i := g])
    ensures forall id :: HasId(groups[i := g], id) <==> HasId(groups, id)
  {
    var groups' := groups[i := g];
    assert forall j :: 0 <= j < |groups| ==> groups'[j].id == groups[j].id;
    forall id ensures HasId(groups', id) <==> HasId(groups, id) {
      if HasId(groups, id) {
        var j :| 0 <= j < |groups| && groups[j].id == id;
        assert groups'[j] in groups';
      }
      if HasId(groups', id) {
        var j :| 0 <= j < |groups'| && groups'[j].id == id;
        assert groups[j] in groups;
      }
    }
  }

  lemma KeepsId(t: Group, o: Group)
    ensures Absorbed(t, o).id == t.id
  {
  }

  class UnifiedStreamEngine {
    const sorter: seq<Candidate> -> seq<Candidate>
    var groups: seq<Group>
    var forcedReady: seq<Group>
    var recentIdentities: set<string>
    var identityOrder: seq<string>
    var nextGroupId: nat
    var counts: Counters
    ghost var history: History

    ghost function Contents(): State
      reads this
    {
      State(groups, forcedReady, recentIdentities, identityOrder, nextGroupId, counts)
    }

    ghost predicate Valid()
      reads this
    {
      IsSorter(sorter) && Inv(Contents(), history)
    }

    constructor (sorter: seq<Candidate> -> seq<Candidate>)
      requires IsSorter(sorter)
      ensures Valid() && IsFresh(Contents()) && IsBlank(history)
      ensures this.sorter == sorter
    {
      hide Inv, IsSorter;
      this.sorter := sorter;
      groups, forcedReady, recentIdentities, identityOrder := [], [], {}, [];
      nextGroupId, counts := 1, EMPTY.n;
      history := History([], map[], [], []);
      new;
      EmptyHolds(Contents(), history);
    }

    method RememberIdentity(identity: string)
      modifies this`recentIdentities, this`identityOrder
      ensures Contents() == Remember(old(Contents()), identity)
    {
      recentIdentities := recentIdentities + {identity};
      identityOrder := identityOrder + [identity];
      ghost var start := Trim(recentIdentities, identityOrder);
      while |identityOrder| > MAX_IDENTITIES
        invariant Trim(recentIdentities, identityOrder) == start
        decreases |identityOrder|
      {
        recentIdentities := recentIdentities - {identityOrder[0]};
        identityOrder := identityOrder[1..];
      }
    }

    /** The two nested loops that look for a member to compact into. */
    method SearchRepeat(a: Arrival) returns (at: Option<(nat, nat)>)
      ensures at == FindRepeat(groups, a, 0)
    {
      var g := 0;
      while g < |groups|
        invariant g <= |groups|
        invariant FindRepeat(groups, a, 0) == FindRepeat(groups, a, g)
      {
        var m := 0;
        while m < |groups[g].members|
          invariant m <= |groups[g].members|
          invariant FindMember(groups[g].members, a, 0) == FindMember(groups[g].members, a, m)
        {
          if Repeats(groups[g].members[m], a) { return Some((g, m)); }
          m := m + 1;
        }
        g := g + 1;
      }
      return None;
    }

    method CollectCandidates(r: Record) returns (cs: seq<Candidate>)
      ensures cs == Candidates(groups, r)
    {
      hide Usable, EvaluateEdge;
      cs := [];
      for g := 0 to |groups|
        invariant cs == Candidates(groups[..g], r)
      {
        assert groups[..g + 1][..g] == groups[..g];
        if !groups[g].operationalOnly {
          var best := ScanGroup(groups[g], r);
          if best.groupId != 0 { cs := cs + [best]; }
        }
      }
      assert groups[..|groups|] == groups;
    }

    method ScanGroup(group: Group, r: Record) returns (best: Candidate)
      ensures best == BestFrom(group, r, 0, NO_CANDIDATE)
    {
      hide Usable, EvaluateEdge;
      best := NO_CANDIDATE;
      for i := 0 to |group.members|
        invariant BestFrom(group, r, 0, NO_CANDIDATE) == BestFrom(group, r, i, best)
      {
        var existing := group.members[i].last;
        var edge := EvaluateEdge(existing, r, CORRELATION_WINDOW_MS);
        if Usable(existing, r, edge) && (best.groupId == 0 || edge.score > best.edge.score) {
          best := Candidate(group.id, i, edge);
        }
      }
    }

    method ForceOutAt(i: nat)
      requires i < |groups|
      modifies this`groups, this`forcedReady, this`counts
      ensures Contents() == ForceOut(old(Contents()), i)
    {
      counts := CountEmitted(counts, groups[i]);
      forcedReady := forcedReady + [groups[i]];
      groups := Without(groups, i);
      counts := counts.(capacityFlushes := counts.capacityFlushes + 1);
    }

    method FlushOldest()
      modifies this`groups, this`forcedReady, this`counts
      ensures Contents() == FlushOldestForCapacity(old(Contents()))
    {
      if groups == [] { return; }
      var oldest := 0;
      for i := 1 to |groups|
        invariant oldest == OldestIndex(groups[..i])
      {
        assert groups[..i + 1][..i] == groups[..i];
        if groups[i].lastActivity < groups[oldest].lastActivity { oldest := i; }
      }
      assert groups[..|groups|] == groups;
      ForceOutAt(oldest);
    }

    method AppendGroup(a: Arrival)
      modifies this`groups, this`nextGroupId
      ensures Contents() == Append(old(Contents()), a)
    {
      groups := groups + [NewGroup(nextGroupId, a)];
      nextGroupId := nextGroupId + 1;
    }

    /** The merge loop over the candidates after the first. */
    method MergeStories(cs: seq<Candidate>) returns (bridges: seq<Bridge>)
      requires cs != [] && Ascending(groups)
      modifies this`groups, this`counts
      ensures old(IndexOf(groups, cs[0].groupId).Some?) ==> IndexOf(groups, cs[0].groupId).Some?
      ensures var m := MergeAll(StartMerge(old(Contents()), cs[0]), cs[0].groupId, cs[1..]);
              && bridges == m.bridges
              && Contents() == old(Contents()).(groups := m.groups, n := old(counts).(connectionLimit := m.limited))
    {
      hide MergeOne, IndexOf;
      var targetId := cs[0].groupId;
      bridges := [Bridge(cs[0].memberIndex, cs[0].edge)];
      var mergedIds: set<nat> := {};
      ghost var start := StartMerge(Contents(), cs[0]);
      ghost var rest := cs[1..];
      var c := 1;
      while c < |cs|
        invariant 1 <= c <= |cs|
        invariant Merging(groups, bridges, counts.connectionLimit) == MergeAll(start, targetId, rest[..c - 1])
        invariant Contents()
               == old(Contents()).(groups := groups, n := old(counts).(connectionLimit := counts.connectionLimit))
        invariant Ascending(groups)
        invariant old(IndexOf(groups, cs[0].groupId).Some?) ==> IndexOf(groups, targetId).Some?
        invariant forall id <- mergedIds :: IndexOf(groups, id).None?
      {
        assert rest[..c][..c - 1] == rest[..c - 1];
        ghost var m := Merging(groups, bridges, counts.connectionLimit);
        AfterMerge(m, targetId, cs[c]);
        bridges, mergedIds := MergeCandidate(targetId, cs[c], bridges, mergedIds);
        c := c + 1;
      }
      assert rest[..|rest|] == rest;
    }

    method MergeCandidate(targetId: nat, candidate: Candidate, bridges: seq<Bridge>, mergedIds: set<nat>)
      returns (bridges': seq<Bridge>, mergedIds': set<nat>)
      requires forall id <- mergedIds :: IndexOf(groups, id).None?
      modifies this`groups, this`counts
      ensures var m := MergeOne(Merging(old(groups), bridges, old(counts).connectionLimit), targetId, candidate);
              && m == Merging(groups, bridges', counts.connectionLimit)
              && counts == old(counts).(connectionLimit := m.limited)
              && (mergedIds' == mergedIds
                  || (mergedIds' == mergedIds + {candidate.groupId} && |groups| < |old(groups)|))
    {
      hide Absorbed;
      bridges', mergedIds' := bridges, mergedIds;
      if candidate.groupId == targetId || candidate.groupId in mergedIds { return; }
      var t, o := IndexOf(groups, targetId), IndexOf(groups, candidate.groupId);
      if t.None? || o.None? { return; }
      var target, other := groups[t.value], groups[o.value];
      if |target.members| + |other.members| + 1 > MAX_MEMBERS {
        counts := counts.(connectionLimit := counts.connectionLimit + 1);
        return;
      }
      bridges' := bridges + [Bridge(|target.members| + candidate.memberIndex, candidate.edge)];
      mergedIds' := mergedIds + {candidate.groupId};
      groups := Without(groups[t.value := Absorbed(target, other)], o.value);
    }

    method JoinCandidates(a: Arrival, cs: seq<Candidate>)
      requires cs != [] && Ascending(groups)
      modifies this`groups, this`forcedReady, this`nextGroupId, this`counts
      ensures Contents() == JoinStories(old(Contents()), a, cs)
    {
      hide MergeAll, Extended, NewGroup, CountEmitted;
      if IndexOf(groups, cs[0].groupId).None? { return; }
      var bridges := MergeStories(cs);
      var t := IndexOf(groups, cs[0].groupId).value;
      if |groups[t].members| >= MAX_MEMBERS {
        ForceOutAt(t);
        AppendGroup(a);
      } else {
        groups := groups[t := Extended(groups[t], a, bridges, cs[0].edge)];
      }
    }

    method Place(a: Arrival)
      requires IsSorter(sorter) && Ascending(groups)
      modifies this`groups, this`forcedReady, this`nextGroupId, this`counts
      ensures Contents() == UnifiedSpec.Place(sorter, old(Contents()), a)
    {
      hide FindRepeat, Candidates, JoinStories, Compacted, IsSorter, NewGroup;
      var at: Option<(nat, nat)> := None;
      if !a.operational { at := SearchRepeat(a); }
      if at.Some? {
        var (g, m) := at.value;
        groups := groups[g := Compacted(groups[g], m, a)];
        counts := counts.(repeats := counts.repeats + 1);
        return;
      }
      var candidates := [];
      if !a.operational { candidates := CollectCandidates(a.record); }
      candidates := sorter(candidates);
      if candidates == [] {
        if |groups| >= MAX_PENDING_GROUPS { FlushOldest(); }
        AppendGroup(a);
      } else {
        JoinCandidates(a, candidates);
      }
    }

    lemma PendingAscend()
      requires Valid()
      ensures Ascending(groups)
    {
      hide GroupBacked, CountsOk, WindowOk, HomesOk, IsSorter;
    }

    /** `Ingest`. `clock` is the time used when the caller gives none. */
    method Ingest(endpoint: string, rawLine: string, observedAt: int, clock: int) returns (accepted: bool)
      requires Valid()
      modifies this
      ensures Valid() && history.emitted == old(history.emitted)
      ensures var wall := if observedAt <= 0 then clock else observedAt;
              && (Contents(), accepted) == UnifiedSpec.Ingest(sorter, old(Contents()), endpoint, rawLine, wall)
              && (accepted <==> !Refused(rawLine, Observe(endpoint, rawLine, wall), old(history.accepted)))
              && history.accepted == old(history.accepted) + if accepted then [Observe(endpoint, rawLine, wall)] else []
    {
      hide Inv, IsSorter, Observe, UnifiedSpec.Place, Remember, LooksLikeObject, ExactIdentity, Refused;
      PendingAscend();
      var wall := if observedAt <= 0 then clock else observedAt;
      ghost var h := IngestKeeps(sorter, Contents(), history, endpoint, rawLine, wall);
      accepted := false;
      if rawLine != "" {
        if !LooksLikeObject(rawLine) {
          counts := counts.(parseFailures := counts.parseFailures + 1);
        } else {
          var a := Observe(endpoint, rawLine, wall);
          var exact := ExactIdentity(a.record);
          if exact in recentIdentities {
            counts := counts.(duplicates := counts.duplicates + 1);
          } else {
            RememberIdentity(exact);
            counts := counts.(accepted := counts.accepted + 1, represented := counts.represented + 1);
            Place(a);
            accepted := true;
          }
        }
      }
      history := h;
    }

    /** The erasing loop of `DrainReady`. */
    method DrainPending(now: int, force: bool) returns (output: seq<Group>)
      modifies this`groups, this`counts
      ensures output == DueOf(old(groups), now, force) && groups == KeptOf(old(groups), now, force)
      ensures counts == CountAll(old(counts), output)
    {
      hide Due, CountEmitted, DueOf, KeptOf, CountAll, Without;
      ghost var pending := groups;
      output := [];
      var it := 0;
      ghost var seen := 0;
      DrainStart(pending, counts, now, force);
      while it < |groups|
        invariant 0 <= seen <= |pending|
        invariant groups == KeptOf(pending[..seen], now, force) + pending[seen..]
        invariant it == |KeptOf(pending[..seen], now, force)|
        invariant output == DueOf(pending[..seen], now, force)
        invariant counts == CountAll(old(counts), output)
        decreases |pending| - seen
      {
        var group := groups[it];
        DrainStep(pending, seen, now, force);
        CountAllPlus(old(counts), output, group);
        if Due(group, now, force) {
          output := output + [group];
          counts := CountEmitted(counts, group);
          groups := Without(groups, it);
        } else {
          it := it + 1;
        }
        seen := seen + 1;
      }
      assert pending[..seen] == pending;
    }

    /** `DrainReady`: the groups that are rendered and exported by this call, in order. */
    method DrainReady(nowUnixMs: int, force: bool, clock: int) returns (output: seq<Group>)
      requires Valid()
      modifies this
      ensures Valid() && forcedReady == []
      ensures var now := if nowUnixMs <= 0 then clock else nowUnixMs;
              && (Contents(), output) == Drain(old(Contents()), now, force)
              && (forall g :: g in groups <==> g in old(groups) && !force && !Finished(g, now))
              && |old(forcedReady)| <= |output| && output[..|old(forcedReady)|] == old(forcedReady)
              && forall g :: g in output[|old(forcedReady)|..] <==> g in old(groups) && (force || Finished(g, now))
      ensures force ==> groups == []
      ensures history == old(history).(emitted := old(history.emitted) + output)
    {
      hide Inv, IsSorter, Due, CountAll, DueOf, KeptOf;
      var now := if nowUnixMs <= 0 then clock else nowUnixMs;
      PendingAscend();
      ghost var h := DrainKeeps(Contents(), history, now, force);
      DrainedExactly(Contents(), now, force);
      output := forcedReady;
      forcedReady := [];
      var due := DrainPending(now, force);
      output := output + due;
      history := h;
    }
  }

  lemma DrainStart(pending: seq<Group>, n: Counters, now: int, force: bool)
    ensures DueOf(pending[..0], now, force) == [] && KeptOf(pending[..0], now, force) == []
    ensures CountAll(n, []) == n && pending[0..] == pending
  {
  }

  lemma CountAllPlus(n: Counters, gs: seq<Group>, g: Group)
    ensures CountAll(n, gs + [g]) == CountEmitted(CountAll(n, gs), g)
  {
    assert (gs + [g])[..|gs|] == gs;
  }

  lemma DrainStep(pending: seq<Group>, seen: nat, now: int, force: bool)
    requires seen < |pending|
    ensures var due, kept := DueOf(pending[..seen], now, force), KeptOf(pending[..seen], now, force);
            var g := pending[seen];
            && (kept + pending[seen..])[|kept|] == g
            && DueOf(pending[..seen + 1], now, force) == (if Due(g, now, force) then due + [g] else due)
            && KeptOf(pending[..seen + 1], now, force) == (if Due(g, now, force) then kept else kept + [g])
            && Without(kept + pending[seen..], |kept|) == kept + pending[seen + 1..]
            && kept + pending[seen..] == kept + [g] + pending[seen + 1..]
  {
    hide Due;
    assert pending[..seen + 1][..seen] == pending[..seen];
    hide DueOf, KeptOf;
    DropAt(KeptOf(pending[..seen], now, force), pending, seen);
  }

  lemma DropAt<T>(kept: seq<T>, pending: seq<T>, seen: nat)
    requires seen < |pending|
    ensures (kept + pending[seen..])[|kept|] == pending[seen]
    ensures Without(kept + pending[seen..], |kept|) == kept + pending[seen + 1..]
    ensures kept + pending[seen..] == kept + [pending[seen]] + pending[seen + 1..]
  {
    assert pending[seen..] == [pending[seen]] + pending[seen + 1..];
  }
}
