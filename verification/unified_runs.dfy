/** What every run of the unified stream engine guarantees about its records and its groups. */
module UnifiedRuns {
  import opened Evidence
  import opened EvidenceGraph
  import opened UnifiedSpec
  import opened UnifiedHistory
  import opened UnifiedPlaces
  import opened UnifiedSteps
  import opened UnifiedInvariant
  import opened UnifiedTheorems

  // ---------------------------------------------------------------- the groups

  ghost predicate Known(s: State, h: History, g: Group) { g in s.groups || g in Out(s, h) }

  lemma KnownIsBacked(s: State, h: History, g: Group)
    requires Inv(s, h) && Known(s, h, g)
    ensures g.id in h.evidence && GroupBacked(g, h.evidence[g.id], h.accepted)
  {
    hide GroupBacked, Core, CountsOk, WindowOk;
    OutIsBacked(s.groups, Out(s, h), s.nextId, h);
  }

  lemma OutIsBacked(groups: seq<Group>, out: seq<Group>, nextId: nat, h: History)
    requires Core(groups, out, nextId, h)
    ensures AllBacked(out, h)
  {
  }

  /** Every pending, forced-out or emitted group is a spanning tree of its members
      whose connections join different endpoints; so it has no connection exactly
      when it has one member, and every connected group spans two endpoints. */
  lemma EveryGroupIsATree(s: State, h: History, g: Group)
    requires Inv(s, h) && Known(s, h, g)
    ensures SpanningTree(g.connections, |g.members|) && 1 <= |g.members| <= MAX_MEMBERS
    ensures g.connections == [] <==> |g.members| == 1
    ensures forall c <- g.connections ::
              c.from < c.to < |g.members| && g.members[c.from].first.endpoint != g.members[c.to].first.endpoint
  {
    hide Inv, SpanningTree, MembersBacked, TimesBacked;
    KnownIsBacked(s, h, g);
    var e := h.evidence[g.id];
    BackedParts(g, e, h.accepted);
    TreeIsForward(g.connections, |g.members|);
    forall c <- g.connections ensures g.members[c.from].first.endpoint != g.members[c.to].first.endpoint {
      ConnectionJoinsEndpoints(c, g, e, h.accepted);
    }
  }

  lemma TreeIsForward(cs: seq<Connection>, n: nat)
    requires SpanningTree(cs, n)
    ensures |cs| == n - 1 && forall c <- cs :: c.from < c.to < n
  {
  }

  lemma ConnectionJoinsEndpoints(c: Connection, g: Group, e: seq<seq<nat>>, acc: seq<Arrival>)
    requires RecordsBacked(g, e, acc) && c in g.connections
    ensures c.from < |g.members| && c.to < |g.members|
    ensures g.members[c.from].first.endpoint != g.members[c.to].first.endpoint
  {
    hide EvaluateEdge;
    assert ConnectionBacked(c, g.members, e, acc);
    var k :| k in e[c.from] && k < |acc| && EdgeBetween(acc[k].record, g.members[c.to].first, c.edge);
    assert MemberBacked(g.members[c.from], e[c.from], acc);
  }

  // ---------------------------------------------------------------- the records

  /** The k-th accepted record is one of those that member i of `g` stands for. */
  ghost predicate StandsFor(h: History, g: Group, i: nat, k: nat) {
    Holds(h.evidence, g.id, i, k)
  }

  /** Exactly one place: some group known to the engine stands for the record in one of its members,
      and no other group and no other member does. */
  lemma EveryRecordHasOneHome(s: State, h: History, k: nat) returns (g: Group, i: nat)
    requires Inv(s, h) && k < |h.accepted|
    ensures Known(s, h, g) && i < |g.members| && StandsFor(h, g, i, k)
    ensures g.members[i].first.endpoint == h.accepted[k].record.endpoint
    ensures g.operationalOnly == h.accepted[k].operational
    ensures forall g': Group, i': nat :: Known(s, h, g') && StandsFor(h, g', i', k) ==> g' == g && i' == i
  {
    hide Core, GroupBacked, CountsOk, WindowOk, Kept, IdsOk;
    CoreOf(s, h);
    var slot := h.home[k];
    assert Holds(h.evidence, slot.group, slot.member, k);
    g := KnownById(s, h, slot.group);
    i := slot.member;
    KnownIsBacked(s, h, g);
    StandsForFacts(g, h.evidence[g.id], h.accepted, i, k);
    forall g': Group, i': nat | Known(s, h, g') && StandsFor(h, g', i', k) ensures g' == g && i' == i {
      assert Holds(h.evidence, g'.id, i', k);
      OneGroupPerId(s, h, g, g');
    }
  }

  lemma CoreOf(s: State, h: History)
    requires Inv(s, h)
    ensures Core(s.groups, Out(s, h), s.nextId, h) && IdsOk(s.groups, Out(s, h), s.nextId)
    ensures HomesOk(h.evidence, h.home) && |h.home| == |h.accepted|
    ensures forall id :: id in h.evidence <==> HasId(s.groups, id) || HasId(Out(s, h), id)
    ensures SumObserved(s.groups) + SumObserved(Out(s, h)) == |h.accepted|
  {
    hide GroupBacked, CountsOk, WindowOk, Marked;
  }

  lemma KnownById(s: State, h: History, id: nat) returns (g: Group)
    requires Inv(s, h) && id in h.evidence
    ensures Known(s, h, g) && g.id == id
  {
    hide Core, GroupBacked, CountsOk, WindowOk, Kept;
    CoreOf(s, h);
    if HasId(s.groups, id) {
      g :| g in s.groups && g.id == id;
    } else {
      g :| g in Out(s, h) && g.id == id;
    }
  }

  lemma OneGroupPerId(s: State, h: History, g: Group, g': Group)
    requires Inv(s, h) && Known(s, h, g) && Known(s, h, g') && g.id == g'.id
    ensures g == g'
  {
    hide Core, GroupBacked, CountsOk, WindowOk, Kept;
    CoreOf(s, h);
    SameGroup(s.groups, Out(s, h), s.nextId, g, g');
  }

  lemma SameGroup(groups: seq<Group>, out: seq<Group>, nextId: nat, g: Group, g': Group)
    requires IdsOk(groups, out, nextId) && g.id == g'.id
    requires g in groups || g in out
    requires g' in groups || g' in out
    ensures g == g'
  {
    assert g in out ==> HasId(out, g.id);
    assert g' in out ==> HasId(out, g'.id);
  }

  lemma StandsForFacts(g: Group, e: seq<seq<nat>>, acc: seq<Arrival>, i: nat, k: nat)
    requires GroupBacked(g, e, acc) && i < |e| && k in e[i]
    ensures i < |g.members| && k < |acc|
    ensures g.members[i].first.endpoint == acc[k].record.endpoint
    ensures acc[k].operational == g.operationalOnly
  {
    hide SpanningTree, TimesBacked;
    assert MemberBacked(g.members[i], e[i], acc);
  }

  /** Conservation: the records the engine says it represents are the observation counts of all groups together,
      each group's observation count is the sum of its members' repeat counts, and a member's repeat count is the
      number of records it stands for. */
  lemma RecordsAreConserved(s: State, h: History)
    requires Inv(s, h)
    ensures s.n.represented == s.n.accepted == |h.accepted| == SumObserved(s.groups) + SumObserved(Out(s, h))
    ensures forall g :: Known(s, h, g) ==> g.recordsObserved == TotalRepeats(g.members)
    ensures forall g: Group, i: nat :: Known(s, h, g) && i < |g.members| ==>
              && g.id in h.evidence && i < |h.evidence[g.id]| && Increasing(h.evidence[g.id][i])
              && g.members[i].repeatCount == |h.evidence[g.id][i]| >= 1
  {
    hide Core, GroupBacked, CountsOk, WindowOk, Kept;
    CoreOf(s, h);
    forall g | Known(s, h, g) ensures g.recordsObserved == TotalRepeats(g.members) {
      KnownIsBacked(s, h, g);
      CountFacts(g, h.evidence[g.id], h.accepted);
    }
    forall g: Group, i: nat | Known(s, h, g) && i < |g.members|
      ensures g.id in h.evidence && i < |h.evidence[g.id]| && Increasing(h.evidence[g.id][i])
              && g.members[i].repeatCount == |h.evidence[g.id][i]| >= 1
    {
      KnownIsBacked(s, h, g);
      CountFacts(g, h.evidence[g.id], h.accepted);
    }
  }

  lemma CountFacts(g: Group, e: seq<seq<nat>>, acc: seq<Arrival>)
    requires GroupBacked(g, e, acc)
    ensures g.recordsObserved == TotalRepeats(g.members) && |e| == |g.members|
    ensures forall i :: 0 <= i < |g.members| ==> Increasing(e[i]) && g.members[i].repeatCount == |e[i]| >= 1
  {
    hide SpanningTree, TimesBacked;
  }

  /** An operational record ends as a group of its own: one member, one record, no connection. */
  lemma OperationalStaysAlone(s: State, h: History, k: nat)
    requires Inv(s, h) && k < |h.accepted| && h.accepted[k].operational
    ensures exists g: Group :: Known(s, h, g) && StandsFor(h, g, 0, k)
              && |g.members| == 1 && g.recordsObserved == 1 && g.connections == [] && g.operationalOnly
  {
    hide Inv, GroupBacked, Known, TotalRepeats;
    var g, i := EveryRecordHasOneHome(s, h, k);
    KnownIsBacked(s, h, g);
    AloneFacts(g, h.evidence[g.id], h.accepted);
    assert Known(s, h, g) && StandsFor(h, g, 0, k);
  }

  lemma AloneFacts(g: Group, e: seq<seq<nat>>, acc: seq<Arrival>)
    requires GroupBacked(g, e, acc) && g.operationalOnly
    ensures |g.members| == 1 && g.recordsObserved == 1 && g.connections == []
  {
    hide TimesBacked, MembersBacked;
    assert TotalRepeats(g.members[..0]) == 0;
  }

  /** With nothing pending, every accepted record has been handed out. */
  lemma NothingPendingMeansDelivered(s: State, h: History, k: nat) returns (g: Group, i: nat)
    requires Inv(s, h) && s.groups == [] && s.forced == [] && k < |h.accepted|
    ensures g in h.emitted && i < |g.members| && StandsFor(h, g, i, k)
  {
    hide Inv;
    assert Out(s, h) == h.emitted;
    g, i := EveryRecordHasOneHome(s, h, k);
  }

  // ---------------------------------------------------------------- whole runs

  datatype Event = Line(endpoint: string, line: string, wall: int) | Drained(now: int, force: bool)

  /** The state after a run, and the groups its drains handed out. */
  function Run(sorter: seq<Candidate> -> seq<Candidate>, events: seq<Event>): (State, seq<Group>) {
    if events == [] then (EMPTY, [])
    else
      var before := Run(sorter, events[..|events| - 1]);
      match events[|events| - 1]
      case Line(endpoint, line, wall) => (Ingest(sorter, before.0, endpoint, line, wall).0, before.1)
      case Drained(now, force) =>
        var r := Drain(before.0, now, force);
        (r.0, before.1 + r.1)
  }

  /** The records a run accepts, in order. */
  function AcceptedIn(sorter: seq<Candidate> -> seq<Candidate>, events: seq<Event>): seq<Arrival> {
    if events == [] then []
    else
      var front, last := events[..|events| - 1], events[|events| - 1];
      AcceptedIn(sorter, front)
      + if last.Line? && Ingest(sorter, Run(sorter, front).0, last.endpoint, last.line, last.wall).1
        then [Observe(last.endpoint, last.line, last.wall)] else []
  }

  /** Over any run of lines and drains, in any order, the invariant holds of exactly the records that the run accepted
      and the groups that it handed out. */
  lemma {:induction false} EveryRunKeeps(sorter: seq<Candidate> -> seq<Candidate>, events: seq<Event>)
    returns (h: History)
    requires IsSorter(sorter)
    ensures Inv(Run(sorter, events).0, h) && h.emitted == Run(sorter, events).1
            && h.accepted == AcceptedIn(sorter, events)
    decreases |events|
  {
    hide Inv, Ingest, Drain, IsSorter, Refused, Observe;
    if events == [] {
      h := History([], map[], [], []);
      EmptyHolds(EMPTY, h);
    } else {
      var before := Run(sorter, events[..|events| - 1]);
      h := EveryRunKeeps(sorter, events[..|events| - 1]);
      match events[|events| - 1]
      case Line(endpoint, line, wall) => h := IngestKeeps(sorter, before.0, h, endpoint, line, wall);
      case Drained(now, force) => h := DrainKeeps(before.0, h, now, force);
    }
  }

  /** No run hands out two groups with the same id, and no handed-out group is still pending. */
  lemma EmittedIdsNeverRepeat(sorter: seq<Candidate> -> seq<Candidate>, events: seq<Event>)
    requires IsSorter(sorter)
    ensures DistinctIds(Run(sorter, events).1)
    ensures forall g <- Run(sorter, events).1, p <- Run(sorter, events).0.groups :: g.id != p.id
  {
    hide Run, Inv, IsSorter;
    var h := EveryRunKeeps(sorter, events);
    var s := Run(sorter, events).0;
    CoreOf(s, h);
    PrefixDistinct(h.emitted, s.forced);
    forall g <- h.emitted, p <- s.groups ensures g.id != p.id {
      assert g in Out(s, h) && HasId(Out(s, h), g.id);
    }
  }

  lemma PrefixDistinct(emitted: seq<Group>, forced: seq<Group>)
    requires DistinctIds(emitted + forced)
    ensures DistinctIds(emitted)
  {
    assert forall i :: 0 <= i < |emitted| ==> emitted[i] == (emitted + forced)[i];
  }
}
