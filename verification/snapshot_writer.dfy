/** CORRELATOR/correlated_snapshot_writer.cpp in its own form. */
module SnapshotWriting {
  import opened Text
  import opened SnapshotSpec
  import opened SnapshotTheorems

  class CorrelatedSnapshotWriter {
    var held: seq<GroupSnapshot>
    var totalGroups: nat
    var totalEvents: nat
    var operationalExcluded: nat
    var knownEndpoints: set<string>
    var edgeAggregates: map<string, EdgeAggregate>
    var endpointCombinations: map<string, Combination>
    var dirty: bool
    /** Every group ever handed in. */
    ghost var all: seq<GroupSnapshot>

    ghost function Contents(): State
      reads this
    {
      State(held, totalGroups, totalEvents, operationalExcluded, knownEndpoints, edgeAggregates, endpointCombinations,
            dirty)
    }

    /** The state is what a recomputation from all groups gives. */
    ghost predicate Valid()
      reads this
    {
      Sound(Contents(), all)
    }

    constructor ()
      ensures Valid() && all == [] && Contents() == EMPTY
    {
      held, totalGroups, totalEvents, operationalExcluded, knownEndpoints := [], 0, 0, 0, {};
      edgeAggregates, endpointCombinations, dirty, all := map[], map[], false, [];
      new;
      EmptyIsSound();
    }

    method AddGroups(groups: seq<GroupSnapshot>)
      requires Valid()
      modifies this
      ensures Valid() && all == old(all) + groups
      ensures Contents() == SnapshotSpec.AddGroups(old(Contents()), groups)
    {
      hide Sound, AddOne, Edges, AddCombination;
      AddGroupsKeeps(Contents(), all, groups);
      ghost var start := Contents();
      var i := 0;
      while i < |groups|
        modifies this
        invariant 0 <= i <= |groups| && all == old(all) && Contents() == AddEach(start, groups[..i])
      {
        assert groups[..i + 1][..i] == groups[..i];
        AddGroup(groups[i]);
        i := i + 1;
      }
      assert groups[..i] == groups;
      TrimHeld();
      all := all + groups;
    }

    /** The loop that drops the oldest held groups. */
    method TrimHeld()
      modifies this`held
      ensures held == LastHeld(old(held))
    {
      assert held[0..] == held;
      while |held| > MAX_HELD
        invariant |held| <= |old(held)| && held == old(held)[|old(held)| - |held|..]
        invariant |held| >= MAX_HELD || held == old(held)
        decreases |held|
      {
        held := held[1..];
      }
    }

    /** The body of the loop over the groups. */
    method AddGroup(group: GroupSnapshot)
      modifies this
      ensures Contents() == AddOne(old(Contents()), group) && all == old(all)
    {
      hide Edges, AddCombination, NamesIn;
      if group.operationalOnly {
        operationalExcluded := operationalExcluded + 1;
        return;
      }
      totalGroups := totalGroups + 1;
      totalEvents := totalEvents + group.recordsObserved;
      RememberEndpoints(group);
      UpdateEndpointGraph(group);
      UpdateEndpointCombinations(group);
      held := held + [group];
      dirty := true;
    }

    method RememberEndpoints(group: GroupSnapshot)
      modifies this`knownEndpoints
      ensures knownEndpoints == old(knownEndpoints) + NamesIn(group)
    {
      var j := 0;
      while j < |group.members|
        modifies this`knownEndpoints
        invariant 0 <= j <= |group.members|
        invariant knownEndpoints == old(knownEndpoints) + set m <- group.members[..j] | m.endpoint != "" :: m.endpoint
      {
        assert group.members[..j + 1] == group.members[..j] + [group.members[j]];
        if group.members[j].endpoint != "" { knownEndpoints := knownEndpoints + {group.members[j].endpoint}; }
        j := j + 1;
      }
      assert group.members[..j] == group.members;
    }

    method UpdateEndpointGraph(group: GroupSnapshot)
      modifies this`edgeAggregates
      ensures edgeAggregates == Edges(old(edgeAggregates), group, |group.connections|)
    {
      hide Less, Counted, KeyOf;
      var n := 0;
      while n < |group.connections|
        invariant 0 <= n <= |group.connections| && edgeAggregates == Edges(old(edgeAggregates), group, n)
      {
        var connection := group.connections[n];
        n := n + 1;
        if connection.from >= |group.members| || connection.to >= |group.members| { continue; }
        var a, b := group.members[connection.from].endpoint, group.members[connection.to].endpoint;
        if a == "" || b == "" || a == b { continue; }
        var ordered := !Less(b, a);
        var link := Link(if ordered then a else b, if ordered then b else a,
                         connection.reason, connection.confidence, connection.score);
        CountLink(link);
      }
    }

    /** The aggregate of a link's key, created if it is not there, takes one link more. */
    method CountLink(link: Link)
      modifies this`edgeAggregates
      ensures edgeAggregates == AddLink(old(edgeAggregates), link)
    {
      var key := link.a + "|" + link.b;
      var aggregate :=
        if key in edgeAggregates then edgeAggregates[key] else EdgeAggregate("", "", 0, map[], "", "", 0.0);
      aggregate := aggregate.(a := link.a, b := link.b, count := aggregate.count + 1);
      var reasons := if link.reason in aggregate.reasons then aggregate.reasons[link.reason] else 0;
      aggregate := aggregate.(reasons := aggregate.reasons[link.reason := reasons + 1], lastReason := link.reason);
      if link.score >= aggregate.strongestScore {
        aggregate := aggregate.(strongestScore := link.score, strongest := link.confidence);
      }
      edgeAggregates := edgeAggregates[key := aggregate];
    }

    method UpdateEndpointCombinations(group: GroupSnapshot)
      modifies this`endpointCombinations
      ensures endpointCombinations == AddCombination(old(endpointCombinations), group)
    {
      hide CorrId, Inserted;
      var endpoints: seq<string> := [];
      var j := 0;
      while j < |group.members|
        invariant 0 <= j <= |group.members| && endpoints == EndpointsOf(group.members, j)
      {
        if group.members[j].endpoint != "" { endpoints := Inserted(endpoints, group.members[j].endpoint); }
        j := j + 1;
      }
      if endpoints == [] { return; }
      var key := JoinNames(endpoints);
      EndpointsAreNamed(group);
      var aggregate := if key in endpointCombinations then endpointCombinations[key] else Combination([], 0, []);
      if aggregate.endpoints == [] { aggregate := aggregate.(endpoints := endpoints); }
      aggregate := aggregate.(incidents := aggregate.incidents + 1);
      if |aggregate.examples| < MAX_EXAMPLES {
        aggregate := aggregate.(examples := aggregate.examples + [CorrId(group.id)]);
      }
      endpointCombinations := endpointCombinations[key := aggregate];
    }
  }

  predicate AllNamed(names: seq<string>) { forall i :: 0 <= i < |names| ==> names[i] != "" }

  lemma {:induction false} InsertedIsNamed(names: seq<string>, x: string)
    requires AllNamed(names) && x != ""
    ensures AllNamed(Inserted(names, x))
  {
    hide Less;
    if names != [] && names[0] != x && !Less(x, names[0]) { InsertedIsNamed(names[1..], x); }
  }

  lemma {:induction false} EndpointsUpToAreNamed(members: seq<MemberSnapshot>, n: nat)
    requires n <= |members|
    ensures AllNamed(EndpointsOf(members, n))
  {
    hide Inserted;
    if n > 0 {
      EndpointsUpToAreNamed(members, n - 1);
      if members[n - 1].endpoint != "" { InsertedIsNamed(EndpointsOf(members, n - 1), members[n - 1].endpoint); }
    }
  }

  lemma EndpointsAreNamed(g: GroupSnapshot)
    ensures AllNamed(Endpoints(g))
  {
    hide AllNamed, EndpointsOf;
    EndpointsUpToAreNamed(g.members, |g.members|);
  }

  lemma {:induction false} JoinedNotEmpty(names: seq<string>)
    requires names != [] && names[0] != ""
    ensures Join(names, "|") != ""
  {
    if |names| > 1 { JoinedNotEmpty(names[..|names| - 1]); }
  }

  /** The key: a bar before every name but the first. */
  method JoinNames(names: seq<string>) returns (key: string)
    ensures AllNamed(names) ==> key == Join(names, "|")
  {
    key := "";
    var i := 0;
    while i < |names|
      invariant 0 <= i <= |names| && (AllNamed(names) ==> key == Join(names[..i], "|"))
    {
      assert names[..i + 1][..i] == names[..i];
      if AllNamed(names) && i > 0 { JoinedNotEmpty(names[..i]); }
      if key != "" { key := key + "|"; }
      key := key + names[i];
      i := i + 1;
    }
    assert names[..i] == names;
  }
}
