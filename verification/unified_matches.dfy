/** What a new record does to the pending stories, said of the fields: it joins every story it is connected to that
    fits, is counted into the member it repeats, and starts a story of its own exactly when it is connected to none. */
module UnifiedMatches {
  import opened Text
  import opened Evidence
  import opened EvidenceExact
  import opened EvidenceGraph
  import opened UnifiedSpec
  import opened UnifiedPlaces
  import opened UnifiedMerge

  // ---------------------------------------------------------------- connections, by the fields

  /** Two records of different endpoints are connected when they are related, except
      that the process ids of the system are shared by too much: a common process id
      up to 4 needs a common path, and a common parent up to 4 is no relation. */
  predicate Connects(a: Record, b: Record) {
    && a.endpoint != b.endpoint && Related(a, b, 2000)
    && (a.endpoint != "port" && b.endpoint != "port" ==>
          if SameProcess(a, b) then a.pid > 4 || (a.path != "" && a.path == b.path)
          else ParentAndChild(a, b) || a.parentPid > 4)
  }

  lemma UsableExactly(a: Record, b: Record)
    ensures Usable(a, b, EvaluateEdge(a, b, 2000)) <==> Connects(a, b)
  {
    hide EvaluateEdge, NearSession, Close, SameProcess, ParentAndChild, Siblings;
    MatchesExactly(a, b, 2000);
    ReasonsDiffer();
    if a.endpoint == "port" || b.endpoint == "port" {
      if EvaluateEdge(a, b, 2000).matched && a.endpoint != b.endpoint { BridgeReasons(a, b); }
    } else {
      LineageUsable(a, b);
    }
  }

  lemma BridgeReasons(a: Record, b: Record)
    requires EvaluateEdge(a, b, 2000).matched && a.endpoint != b.endpoint
             && (a.endpoint == "port" || b.endpoint == "port")
    ensures EvaluateEdge(a, b, 2000).reason != "same_pid" && EvaluateEdge(a, b, 2000).reason != "sibling_pid"
  {
    hide EvaluateEdge, NearSession;
    ReasonsDiffer();
    if a.endpoint == "port" { BridgeExactly(a, b, 2000); } else { BridgeExactly(b, a, 2000); }
  }

  lemma LineageUsable(a: Record, b: Record)
    requires a.endpoint != "port" && b.endpoint != "port"
    ensures Usable(a, b, EvaluateEdge(a, b, 2000)) <==> Connects(a, b)
  {
    hide EvaluateEdge, Close, NearSession;
    LineageExactly(a, b, 2000);
    ReasonsDiffer();
  }

  /** The story is no status line and has a member whose latest record is connected to the new one. */
  predicate Relates(g: Group, r: Record) {
    !g.operationalOnly && exists i :: 0 <= i < |g.members| && Connects(g.members[i].last, r)
  }

  lemma RelatesIsMatches(g: Group, r: Record)
    ensures Relates(g, r) <==> Matches(g, r)
  {
    hide Connects, Usable, EvaluateEdge;
    forall i | 0 <= i < |g.members| ensures Connects(g.members[i].last, r) <==> UsableMatch(g.members[i], r) {
      UsableExactly(g.members[i].last, r);
    }
  }

  // ---------------------------------------------------------------- merging the matched stories

  /** The story's members stand in a row in `t`, and a bridge leads to the candidate's one. */
  ghost predicate AbsorbedIn(t: Group, bridges: seq<Bridge>, o: Group, c: Candidate) {
    exists off: nat :: StandsAt(t, o, off) && Bridge(off + c.memberIndex, c.edge) in bridges
  }

  predicate StandsAt(t: Group, o: Group, off: nat) {
    off + |o.members| <= |t.members| && t.members[off..off + |o.members|] == o.members
  }

  /** The candidate's story is part of the target, or is still there because both together have no room for one more. */
  ghost predicate Dealt(groups: seq<Group>, m: Merging, t: Group, c: Candidate) {
    forall o <- groups :: o.id == c.groupId ==>
      AbsorbedIn(t, m.bridges, o, c) || (o in m.groups && |t.members| + |o.members| + 1 > 16)
  }

  predicate NotAmong(cs: seq<Candidate>, id: nat) { forall c <- cs :: c.groupId != id }

  /** After the candidates `done`, the target having grown from `t0` to `t`. */
  ghost predicate Shape(groups: seq<Group>, t0: Group, c0: Candidate, done: seq<Candidate>, m: Merging, t: Group) {
    && Ascending(m.groups) && t in m.groups && t.id == t0.id
    && t0.members <= t.members && t.createdWall == t0.createdWall && NotAmong(done, t0.id)
    && (forall g <- m.groups :: g.id != t.id ==> g in groups)
    && Bridge(c0.memberIndex, c0.edge) in m.bridges
    && (forall c <- done :: Dealt(groups, m, t, c))
    && (forall o <- groups :: o.id != t.id && NotAmong(done, o.id) ==> o in m.groups)
  }

  lemma IndexIs(groups: seq<Group>, g: Group) returns (i: nat)
    requires Ascending(groups) && g in groups
    ensures i < |groups| && groups[i] == g && IndexOf(groups, g.id) == Some(i)
  {
    i :| 0 <= i < |groups| && groups[i] == g;
    var k := IndexOf(groups, g.id);
    assert k.Some? && groups[k.value].id == groups[i].id;
  }

  lemma Replaced(groups: seq<Group>, i: nat, g: Group)
    requires Ascending(groups) && i < |groups| && g.id == groups[i].id
    ensures Ascending(groups[i := g]) && forall x :: x in groups[i := g] <==> x == g || (x in groups && x.id != g.id)
  {
    var groups' := groups[i := g];
    forall x ensures x in groups' <==> x == g || (x in groups && x.id != g.id) {
      if x in groups' {
        var k :| 0 <= k < |groups'| && groups'[k] == x;
        if k != i { assert groups[k] == x; }
      }
      if x in groups && x.id != g.id {
        var k :| 0 <= k < |groups| && groups[k] == x;
        assert groups'[k] == x;
      }
      assert groups'[i] == g;
    }
  }

  lemma Dropped(groups: seq<Group>, i: nat)
    requires Ascending(groups) && i < |groups|
    ensures Ascending(Without(groups, i))
    ensures forall x :: x in Without(groups, i) <==> x in groups && x.id != groups[i].id
  {
    hide Ascending, Without;
    WithoutMembers(groups, i);
    forall x | x in groups && x.id != groups[i].id ensures x in Without(groups, i) { OthersStay(groups, i, x); }
  }

  lemma OthersStay(groups: seq<Group>, i: nat, x: Group)
    requires i < |groups| && x in groups && x.id != groups[i].id
    ensures x in Without(groups, i)
  {
    var k :| 0 <= k < |groups| && groups[k] == x;
    assert Without(groups, i)[if k < i then k else k - 1] == x;
  }

  /** What one absorption does to the list. */
  lemma AbsorbedGroups(groups: seq<Group>, ti: nat, oi: nat)
    requires Ascending(groups) && ti < |groups| && oi < |groups| && ti != oi
    ensures var t' := Absorbed(groups[ti], groups[oi]);
            var groups' := Without(groups[ti := t'], oi);
            && Ascending(groups')
            && forall g :: g in groups' <==> g == t' || (g in groups && g.id != groups[ti].id && g.id != groups[oi].id)
  {
    hide Absorbed, Without;
    var t' := Absorbed(groups[ti], groups[oi]);
    AbsorbedMembers(groups[ti], groups[oi]);
    var mid := groups[ti := t'];
    assert groups[ti].id != groups[oi].id && mid[oi] == groups[oi];
    Replaced(groups, ti, t');
    Dropped(mid, oi);
  }

  lemma AbsorbedMembers(t: Group, o: Group)
    ensures var t' := Absorbed(t, o);
            && t.members <= t'.members && StandsAt(t', o, |t.members|) && t'.id == t.id
               && t'.createdWall == t.createdWall
  {
    hide Shifted;
    var t' := Absorbed(t, o);
    assert t'.members[|t.members|..|t.members| + |o.members|] == o.members;
  }

  lemma AbsorbedStays(t: Group, t': Group, bridges: seq<Bridge>, more: seq<Bridge>, o: Group, c: Candidate)
    requires AbsorbedIn(t, bridges, o, c) && t.members <= t'.members
    ensures AbsorbedIn(t', bridges + more, o, c)
  {
    var off: nat :| StandsAt(t, o, off) && Bridge(off + c.memberIndex, c.edge) in bridges;
    assert t'.members[off..off + |o.members|] == t.members[off..off + |o.members|];
    assert StandsAt(t', o, off) && Bridge(off + c.memberIndex, c.edge) in bridges + more;
  }

  /** One candidate more. */
  lemma MergeStep(groups: seq<Group>, t0: Group, c0: Candidate, done: seq<Candidate>, m: Merging, t: Group, o: Group,
                  c: Candidate)
    returns (t': Group)
    requires Ascending(groups) && Shape(groups, t0, c0, done, m, t)
    requires o in groups && o.id == c.groupId && o.id != t.id && NotAmong(done, o.id)
    ensures Shape(groups, t0, c0, done + [c], MergeOne(m, t0.id, c), t')
  {
    hide Shape, Absorbed, Without;
    ShapeParts(groups, t0, c0, done, m, t, o);
    var ti := IndexIs(m.groups, t);
    var oi := IndexIs(m.groups, o);
    var m' := MergeOne(m, t0.id, c);
    if |t.members| + |o.members| + 1 > MAX_MEMBERS {
      t' := t;
      StepWithoutRoom(groups, t0, c0, done, m, t, o, c, m');
    } else {
      t' := Absorbed(t, o);
      AbsorbedGroups(m.groups, ti, oi);
      AbsorbedMembers(t, o);
      StepAbsorbs(groups, t0, c0, done, m, t, o, c, m', t');
    }
  }

  lemma ShapeParts(groups: seq<Group>, t0: Group, c0: Candidate, done: seq<Candidate>, m: Merging, t: Group, o: Group)
    requires Shape(groups, t0, c0, done, m, t) && o in groups && o.id != t.id && NotAmong(done, o.id)
    ensures Ascending(m.groups) && t in m.groups && o in m.groups && t.id == t0.id
  {
    hide Dealt, NotAmong;
  }

  lemma StepWithoutRoom(groups: seq<Group>, t0: Group, c0: Candidate, done: seq<Candidate>, m: Merging, t: Group,
                        o: Group, c: Candidate, m': Merging)
    requires Ascending(groups) && Shape(groups, t0, c0, done, m, t)
    requires o in groups && o in m.groups && o.id == c.groupId && o.id != t.id
    requires m'.groups == m.groups && m'.bridges == m.bridges && |t.members| + |o.members| + 1 > 16
    ensures Shape(groups, t0, c0, done + [c], m', t)
  {
    hide AbsorbedIn, NotAmong;
    OnlyOne(groups, o);
    DealtStays(groups, m, m', t, t, done);
    assert Dealt(groups, m', t, c);
    LastOfDone(groups, m', t, done, c);
  }

  lemma StepAbsorbs(groups: seq<Group>, t0: Group, c0: Candidate, done: seq<Candidate>, m: Merging, t: Group, o: Group,
                    c: Candidate, m': Merging, t': Group)
    requires Ascending(groups) && Shape(groups, t0, c0, done, m, t)
    requires o in groups && o.id == c.groupId && o.id != t.id && NotAmong(done, o.id)
    requires Ascending(m'.groups)
    requires forall g :: g in m'.groups <==> g == t' || (g in m.groups && g.id != t.id && g.id != o.id)
    requires m'.bridges == m.bridges + [Bridge(|t.members| + c.memberIndex, c.edge)]
    requires t.members <= t'.members && StandsAt(t', o, |t.members|) && t'.id == t.id && t'.createdWall == t.createdWall
    ensures Shape(groups, t0, c0, done + [c], m', t')
  {
    hide AbsorbedIn, Dealt, StandsAt;
    var bridge := Bridge(|t.members| + c.memberIndex, c.edge);
    OnlyOne(groups, o);
    forall d <- done ensures Dealt(groups, m', t', d) {
      DealtGrows(groups, m, m', t, t', o, d, bridge);
    }
    assert bridge in m'.bridges;
    ItStands(t', m'.bridges, o, c, |t.members|);
    AbsorbedIsDealt(groups, m', t', o, c);
    LastOfDone(groups, m', t', done, c);
  }

  lemma AbsorbedIsDealt(groups: seq<Group>, m: Merging, t: Group, o: Group, c: Candidate)
    requires AbsorbedIn(t, m.bridges, o, c) && forall g <- groups :: g.id == c.groupId ==> g == o
    ensures Dealt(groups, m, t, c)
  {
    hide AbsorbedIn;
  }

  lemma ItStands(t: Group, bridges: seq<Bridge>, o: Group, c: Candidate, off: nat)
    requires StandsAt(t, o, off) && Bridge(off + c.memberIndex, c.edge) in bridges
    ensures AbsorbedIn(t, bridges, o, c)
  {
  }

  lemma OnlyOne(groups: seq<Group>, o: Group)
    requires Ascending(groups) && o in groups
    ensures forall g <- groups :: g.id == o.id ==> g == o
  {
  }

  lemma LastOfDone(groups: seq<Group>, m: Merging, t: Group, done: seq<Candidate>, c: Candidate)
    requires (forall d <- done :: Dealt(groups, m, t, d)) && Dealt(groups, m, t, c)
    ensures forall d <- done + [c] :: Dealt(groups, m, t, d)
    ensures forall id :: NotAmong(done + [c], id) <==> NotAmong(done, id) && c.groupId != id
  {
    hide Dealt;
    forall id ensures NotAmong(done + [c], id) <==> NotAmong(done, id) && c.groupId != id {
      assert (done + [c])[|done|] == c;
      forall d <- done ensures d in done + [c] { }
    }
  }

  lemma DealtStays(groups: seq<Group>, m: Merging, m': Merging, t: Group, t': Group, done: seq<Candidate>)
    requires m'.groups == m.groups && m'.bridges == m.bridges && t' == t
    requires forall d <- done :: Dealt(groups, m, t, d)
    ensures forall d <- done :: Dealt(groups, m', t', d)
  {
    hide AbsorbedIn;
  }

  lemma DealtGrows(groups: seq<Group>, m: Merging, m': Merging, t: Group, t': Group, o: Group, d: Candidate,
                   bridge: Bridge)
    requires Dealt(groups, m, t, d) && t.members <= t'.members && m'.bridges == m.bridges + [bridge]
    requires forall g <- m.groups :: g.id != t.id && g.id != o.id ==> g in m'.groups
    requires d.groupId != o.id && d.groupId != t.id
    ensures Dealt(groups, m', t', d)
  {
    hide AbsorbedIn;
    forall x <- groups | x.id == d.groupId
      ensures AbsorbedIn(t', m'.bridges, x, d) || (x in m'.groups && |t'.members| + |x.members| + 1 > 16)
    {
      if AbsorbedIn(t, m.bridges, x, d) { AbsorbedStays(t, t', m.bridges, [bridge], x, d); }
    }
  }

  /** All candidates after the first. */
  lemma {:induction false} MergeShapes(groups: seq<Group>, t0: Group, c0: Candidate, limited: nat, cs: seq<Candidate>)
    returns (t: Group)
    requires Ascending(groups) && t0 in groups && Distinct(cs)
    requires forall c <- cs :: c.groupId != t0.id && HasId(groups, c.groupId)
    ensures var m0 := Merging(groups, [Bridge(c0.memberIndex, c0.edge)], limited);
            Shape(groups, t0, c0, cs, MergeAll(m0, t0.id, cs), t)
    decreases |cs|
  {
    hide Shape, MergeOne;
    var m0 := Merging(groups, [Bridge(c0.memberIndex, c0.edge)], limited);
    if cs == [] {
      t := t0;
      StartShape(groups, t0, c0, m0);
    } else {
      var front, c := cs[..|cs| - 1], cs[|cs| - 1];
      assert c in cs && forall d <- front :: d in cs;
      var before := MergeShapes(groups, t0, c0, limited, front);
      var o :| o in groups && o.id == c.groupId;
      LastIsNew(cs);
      var m := MergeAll(m0, t0.id, front);
      ShapeId(groups, t0, c0, front, m, before);
      t := MergeStep(groups, t0, c0, front, m, before, o, c);
      assert front + [c] == cs;
    }
  }

  lemma ShapeId(groups: seq<Group>, t0: Group, c0: Candidate, done: seq<Candidate>, m: Merging, t: Group)
    requires Shape(groups, t0, c0, done, m, t)
    ensures t.id == t0.id
  {
  }

  lemma StartShape(groups: seq<Group>, t0: Group, c0: Candidate, m: Merging)
    requires Ascending(groups) && t0 in groups && m.groups == groups && m.bridges == [Bridge(c0.memberIndex, c0.edge)]
    ensures Shape(groups, t0, c0, [], m, t0)
  {
    assert m.bridges[0] in m.bridges;
  }

  lemma LastIsNew(cs: seq<Candidate>)
    requires Distinct(cs) && cs != []
    ensures NotAmong(cs[..|cs| - 1], cs[|cs| - 1].groupId) && Distinct(cs[..|cs| - 1])
  {
    var front, c := cs[..|cs| - 1], cs[|cs| - 1];
    forall d <- front ensures d.groupId != c.groupId {
      var i :| 0 <= i < |front| && front[i] == d;
      assert cs[i] == d;
    }
  }

  // ---------------------------------------------------------------- the story the record joins

  /** The best match of a story: no connection to another of its members scores more. */
  predicate BestMatch(o: Group, i: nat, r: Record) {
    && i < |o.members| && Connects(o.members[i].last, r)
    && forall j :: 0 <= j < |o.members| && Connects(o.members[j].last, r) ==>
         EvaluateEdge(o.members[j].last, r, 2000).score <= EvaluateEdge(o.members[i].last, r, 2000).score
  }

  /** The story stands in `g` from `off` on, and its best match, member i, is connected to the last member of `g`. */
  predicate JoinsAt(g: Group, o: Group, off: nat, i: nat, r: Record) {
    && BestMatch(o, i, r) && off + |o.members| < |g.members| && g.members[off..off + |o.members|] == o.members
    && Connection(off + i, |g.members| - 1, EvaluateEdge(o.members[i].last, r, 2000)) in g.connections
  }

  /** The last member of `g` stands for the record, and the story `o` is part of
      `g`, joined to that member from its best match. */
  ghost predicate JoinedTo(g: Group, o: Group, r: Record) {
    && g.members != [] && g.members[|g.members| - 1].first == g.members[|g.members| - 1].last == r
    && exists off: nat, i: nat :: JoinsAt(g, o, off, i, r)
  }

  /** The candidate is the best match of the story. */
  predicate Proposes(c: Candidate, o: Group, r: Record) {
    && c.groupId == o.id && BestMatch(o, c.memberIndex, r)
    && c.edge == EvaluateEdge(o.members[c.memberIndex].last, r, 2000)
  }

  lemma BridgeJoins(t: Group, bridges: seq<Bridge>, o: Group, c: Candidate, a: Arrival, incoming: Edge)
    requires AbsorbedIn(t, bridges, o, c) && Proposes(c, o, a.record)
    ensures JoinedTo(Extended(t, a, bridges, incoming), o, a.record)
  {
    hide BestMatch;
    var off: nat :| StandsAt(t, o, off) && Bridge(off + c.memberIndex, c.edge) in bridges;
    var g := Extended(t, a, bridges, incoming);
    var n := |t.members|;
    assert g.members[off..off + |o.members|] == t.members[off..off + |o.members|];
    var k :| 0 <= k < |bridges| && bridges[k] == Bridge(off + c.memberIndex, c.edge);
    assert BridgesTo(bridges, n)[k] == Connection(off + c.memberIndex, n, c.edge);
    hide BridgesTo;
    assert g.connections[|t.connections| + k] == Connection(off + c.memberIndex, n, c.edge);
    assert JoinsAt(g, o, off, c.memberIndex, a.record);
  }

  lemma FirstIsAbsorbed(groups: seq<Group>, t0: Group, c0: Candidate, done: seq<Candidate>, m: Merging, t: Group)
    requires Shape(groups, t0, c0, done, m, t) && c0.memberIndex < |t0.members|
    ensures AbsorbedIn(t, m.bridges, t0, c0)
  {
    hide Dealt;
    assert t.members[0..0 + |t0.members|] == t0.members;
    assert StandsAt(t, t0, 0) && Bridge(0 + c0.memberIndex, c0.edge) in m.bridges;
  }

  /** The record is a new story of its own, with nothing joined to it. */
  predicate Alone(g: Group, id: nat, a: Arrival) {
    && g.id == id && |g.members| == 1 && g.members[0].first == g.members[0].last == a.record && g.connections == []
    && g.createdWall == g.lastActivity == a.wall && g.operationalOnly == a.operational
  }

  /** What joining does when every candidate proposes its story: the target takes the record, or is full and leaves. */
  ghost predicate Outcome(s: State, s': State, t0: Group, a: Arrival) {
    || (&& s'.forced == s.forced && s'.nextId == s.nextId
        && exists g <- s'.groups ::
             && g.id == t0.id && g.createdWall == t0.createdWall && g.lastActivity == a.wall
                && JoinedTo(g, t0, a.record)
             && (forall o <- s.groups :: Relates(o, a.record) && o.id != t0.id ==>
                   JoinedTo(g, o, a.record) || (o in s'.groups && |g.members| + |o.members| > 16))
             && (forall x <- s'.groups :: x == g || x in s.groups))
    || (&& s'.nextId == s.nextId + 1 && s'.groups != [] && Alone(s'.groups[|s'.groups| - 1], s.nextId, a)
        && (forall x <- s'.groups[..|s'.groups| - 1] :: x in s.groups)
        && exists f :: s'.forced == s.forced + [f] && f.id == t0.id && t0.members <= f.members && |f.members| >= 16)
  }

  ghost predicate Proposals(s: State, cs: seq<Candidate>, r: Record) {
    && Distinct(cs)
    && (forall c <- cs :: exists o <- s.groups :: Proposes(c, o, r))
    && forall o <- s.groups :: Relates(o, r) ==> exists c <- cs :: c.groupId == o.id
  }

  lemma ProposalsParts(s: State, cs: seq<Candidate>, r: Record, c0: Candidate, t0: Group)
    requires Ascending(s.groups) && Proposals(s, cs, r) && cs != [] && c0 == cs[0] && t0 in s.groups
             && Proposes(c0, t0, r)
    ensures Distinct(cs[1..]) && forall c <- cs[1..] :: c.groupId != t0.id && HasId(s.groups, c.groupId)
  {
    hide BestMatch, Relates;
    forall c <- cs[1..] ensures c.groupId != t0.id && HasId(s.groups, c.groupId) {
      var i :| 0 <= i < |cs[1..]| && cs[1..][i] == c;
      assert cs[i + 1] == c && c in cs;
      var o :| o in s.groups && Proposes(c, o, r);
    }
  }

  /** The other related stories are joined too, or have no room. */
  lemma OthersJoin(s: State, cs: seq<Candidate>, a: Arrival, t0: Group, m: Merging, t: Group, o: Group, g: Group)
    requires Ascending(s.groups) && Proposals(s, cs, a.record) && cs != [] && t0 in s.groups
    requires Proposes(cs[0], t0, a.record) && Shape(s.groups, t0, cs[0], cs[1..], m, t)
    requires o in s.groups && Relates(o, a.record) && o.id != t0.id && g == Extended(t, a, m.bridges, cs[0].edge)
    ensures JoinedTo(g, o, a.record) || (o in m.groups && |g.members| + |o.members| > 16)
  {
    hide JoinedTo, BestMatch, Relates, AbsorbedIn, NotAmong, Distinct;
    var c :| c in cs && c.groupId == o.id;
    var x :| x in s.groups && Proposes(c, x, a.record);
    OnlyOne(s.groups, o);
    var i :| 0 <= i < |cs| && cs[i] == c;
    assert i != 0 && cs[1..][i - 1] == c;
    assert Dealt(s.groups, m, t, c);
    if AbsorbedIn(t, m.bridges, o, c) { BridgeJoins(t, m.bridges, o, c, a, cs[0].edge); }
  }

  lemma JoinOutcome(s: State, a: Arrival, cs: seq<Candidate>, t0: Group)
    requires Ascending(s.groups) && Proposals(s, cs, a.record) && cs != []
    requires t0 in s.groups && Proposes(cs[0], t0, a.record)
    ensures Outcome(s, JoinStories(s, a, cs), t0, a)
  {
    hide Shape, Proposals, MergeAll, JoinedTo, Relates, Proposes, Extended, Alone, Without, Outcome;
    ProposalsParts(s, cs, a.record, cs[0], t0);
    ProposesId(cs[0], t0, a.record);
    var t := MergeShapes(s.groups, t0, cs[0], s.n.connectionLimit, cs[1..]);
    var m := MergeAll(StartMerge(s, cs[0]), t0.id, cs[1..]);
    ShapeFacts(s.groups, t0, cs[0], cs[1..], m, t);
    var ti := IndexIs(m.groups, t);
    var _ := IndexIs(s.groups, t0);
    if |t.members| >= MAX_MEMBERS {
      FullLeaves(s, a, t0, m, t, ti, JoinStories(s, a, cs));
    } else {
      TargetTakes(s, a, cs, t0, m, t, ti, JoinStories(s, a, cs));
    }
  }

  lemma TargetTakes(s: State, a: Arrival, cs: seq<Candidate>, t0: Group, m: Merging, t: Group, ti: nat, s': State)
    requires Ascending(s.groups) && Proposals(s, cs, a.record) && cs != [] && t0 in s.groups
    requires Proposes(cs[0], t0, a.record) && Shape(s.groups, t0, cs[0], cs[1..], m, t)
    requires ti < |m.groups| && m.groups[ti] == t && s'.forced == s.forced && s'.nextId == s.nextId
    requires s'.groups == m.groups[ti := Extended(t, a, m.bridges, cs[0].edge)]
    ensures Outcome(s, s', t0, a)
  {
    hide Shape, Proposals, JoinedTo, Relates, Proposes, Extended, Alone;
    ShapeFacts(s.groups, t0, cs[0], cs[1..], m, t);
    ProposesId(cs[0], t0, a.record);
    var g := Extended(t, a, m.bridges, cs[0].edge);
    FirstIsAbsorbed(s.groups, t0, cs[0], cs[1..], m, t);
    BridgeJoins(t, m.bridges, t0, cs[0], a, cs[0].edge);
    ExtendedFacts(t, a, m.bridges, cs[0].edge);
    Replaced(m.groups, ti, g);
    forall o <- s.groups | Relates(o, a.record) && o.id != t0.id
      ensures JoinedTo(g, o, a.record) || (o in s'.groups && |g.members| + |o.members| > 16)
    {
      OthersJoin(s, cs, a, t0, m, t, o, g);
    }
    assert g in s'.groups;
  }

  lemma ProposesId(c: Candidate, o: Group, r: Record)
    requires Proposes(c, o, r)
    ensures c.groupId == o.id && c.memberIndex < |o.members|
  {
  }

  lemma ExtendedFacts(t: Group, a: Arrival, bridges: seq<Bridge>, incoming: Edge)
    ensures var g := Extended(t, a, bridges, incoming);
            g.id == t.id && g.createdWall == t.createdWall && g.lastActivity == a.wall && |g.members| == |t.members| + 1
  {
  }

  lemma ShapeFacts(groups: seq<Group>, t0: Group, c0: Candidate, done: seq<Candidate>, m: Merging, t: Group)
    requires Shape(groups, t0, c0, done, m, t)
    ensures Ascending(m.groups) && t in m.groups && t.id == t0.id && t0.members <= t.members
    ensures t.createdWall == t0.createdWall && forall g <- m.groups :: g.id != t.id ==> g in groups
  {
    hide Dealt, NotAmong;
  }

  lemma FullLeaves(s: State, a: Arrival, t0: Group, m: Merging, t: Group, ti: nat, s': State)
    requires Ascending(m.groups) && ti < |m.groups| && m.groups[ti] == t && t.id == t0.id && t0.members <= t.members
    requires |t.members| >= 16 && forall g <- m.groups :: g.id != t.id ==> g in s.groups
    requires s' == Append(ForceOut(s.(groups := m.groups, n := s.n.(connectionLimit := m.limited)), ti), a)
    ensures Outcome(s, s', t0, a)
  {
    hide JoinedTo, Relates, Without, CountEmitted;
    Dropped(m.groups, ti);
    var kept := Without(m.groups, ti);
    assert s'.groups == kept + [NewGroup(s.nextId, a)] && s'.groups[..|s'.groups| - 1] == kept;
    assert s'.forced == s.forced + [t];
  }

  // ---------------------------------------------------------------- placing a record

  predicate TopScore(cs: seq<Candidate>) { cs != [] ==> forall c <- cs :: c.edge.score <= cs[0].edge.score }

  lemma StrongestProposes(c: Candidate, o: Group, r: Record)
    requires Strongest(c, o, r)
    ensures Proposes(c, o, r) && Relates(o, r)
  {
    hide Connects, Usable, EvaluateEdge;
    forall i | 0 <= i < |o.members| ensures Connects(o.members[i].last, r) <==> UsableMatch(o.members[i], r) {
      UsableExactly(o.members[i].last, r);
    }
  }

  /** Every candidate proposes a related story, */
  ghost predicate OnlyRelated(s: State, cs: seq<Candidate>, r: Record) {
    forall c <- cs :: exists o <- s.groups :: Proposes(c, o, r) && Relates(o, r)
  }

  /** and every related story has one. */
  ghost predicate AllRelated(s: State, cs: seq<Candidate>, r: Record) {
    forall o <- s.groups :: Relates(o, r) ==> exists c <- cs :: c.groupId == o.id
  }

  /** The sorted candidates propose exactly the related stories, best first. */
  lemma SortedProposals(sorter: seq<Candidate> -> seq<Candidate>, s: State, r: Record)
    requires IsSorter(sorter) && Ascending(s.groups) && forall g <- s.groups :: g.id != 0
    ensures var cs := sorter(Candidates(s.groups, r));
            && Proposals(s, cs, r) && TopScore(cs)
            && OnlyRelated(s, cs, r) && (cs == [] || exists o <- s.groups :: Relates(o, r))
  {
    hide Candidates, Relates, Distinct, IsSorter, TopScore, Proposals, OnlyRelated, AllRelated;
    SortedPropose(sorter, s, r);
    SortedComplete(sorter, s, r);
    Assembled(s, sorter(Candidates(s.groups, r)), r);
  }

  lemma SortedPropose(sorter: seq<Candidate> -> seq<Candidate>, s: State, r: Record)
    requires IsSorter(sorter) && Ascending(s.groups) && forall g <- s.groups :: g.id != 0
    ensures var cs := sorter(Candidates(s.groups, r));
            Distinct(cs) && TopScore(cs) && OnlyRelated(s, cs, r)
  {
    hide Candidates, Strongest, Proposes, Relates, Distinct, SortedByScore, IsSorter, TopScore;
    var raw := Candidates(s.groups, r);
    CandidatesSound(s.groups, r);
    CandidatesDistinct(s.groups, r);
    SorterSorts(sorter, raw);
    SortedStayDistinct(raw, sorter(raw));
    AllPropose(s, raw, sorter(raw), r);
    TopOfSorted(sorter(raw));
  }

  lemma SortedComplete(sorter: seq<Candidate> -> seq<Candidate>, s: State, r: Record)
    requires IsSorter(sorter) && Ascending(s.groups) && forall g <- s.groups :: g.id != 0
    ensures AllRelated(s, sorter(Candidates(s.groups, r)), r)
  {
    hide Candidates, Matches, Relates, Distinct, SortedByScore, IsSorter;
    var raw := Candidates(s.groups, r);
    CandidatesComplete(s.groups, r);
    CandidatesDistinct(s.groups, r);
    SorterSorts(sorter, raw);
    SortedStayDistinct(raw, sorter(raw));
    AllProposed(s, raw, sorter(raw), r);
  }

  lemma Assembled(s: State, cs: seq<Candidate>, r: Record)
    requires Distinct(cs) && OnlyRelated(s, cs, r) && AllRelated(s, cs, r)
    ensures Proposals(s, cs, r) && (cs == [] || exists o <- s.groups :: Relates(o, r))
  {
    hide Proposes, Relates, Distinct;
    if cs != [] { assert cs[0] in cs; }
  }

  lemma SorterSorts(sorter: seq<Candidate> -> seq<Candidate>, cs: seq<Candidate>)
    requires IsSorter(sorter)
    ensures SortedByScore(sorter(cs)) && multiset(sorter(cs)) == multiset(cs)
  {
  }

  lemma AllPropose(s: State, raw: seq<Candidate>, cs: seq<Candidate>, r: Record)
    requires (forall c <- raw :: exists o <- s.groups :: Strongest(c, o, r)) && forall c :: c in cs <==> c in raw
    ensures forall c <- cs :: exists o <- s.groups :: Proposes(c, o, r) && Relates(o, r)
  {
    hide Strongest, Proposes, Relates;
    forall c <- cs ensures exists o <- s.groups :: Proposes(c, o, r) && Relates(o, r) {
      var o :| o in s.groups && Strongest(c, o, r);
      StrongestProposes(c, o, r);
    }
  }

  lemma AllProposed(s: State, raw: seq<Candidate>, cs: seq<Candidate>, r: Record)
    requires forall c :: c in cs <==> c in raw
    requires forall o <- s.groups :: Matches(o, r) ==> exists c <- raw :: c.groupId == o.id
    ensures forall o <- s.groups :: Relates(o, r) ==> exists c <- cs :: c.groupId == o.id
  {
    hide Matches, Relates;
    forall o <- s.groups | Relates(o, r) ensures exists c <- cs :: c.groupId == o.id {
      RelatesIsMatches(o, r);
      var c :| c in raw && c.groupId == o.id;
      assert c in cs;
    }
  }

  lemma TopOfSorted(cs: seq<Candidate>)
    requires SortedByScore(cs)
    ensures TopScore(cs)
  {
    if cs != [] {
      forall c <- cs ensures c.edge.score <= cs[0].edge.score {
        var i :| 0 <= i < |cs| && cs[i] == c;
      }
    }
  }

  /** No match of any related story scores more than the best of this one. */
  ghost predicate TopStory(groups: seq<Group>, t: Group, r: Record) {
    && t in groups && Relates(t, r)
    && exists i: nat :: BestMatch(t, i, r) && forall o <- groups, j: nat :: Relates(o, r) && BestMatch(o, j, r) ==>
         EvaluateEdge(o.members[j].last, r, 2000).score <= EvaluateEdge(t.members[i].last, r, 2000).score
  }

  /** A record that repeats nothing and is connected to a pending story joins the story of its best
      match, unless that is full, and with it every other story that it is connected to and that fits. */
  lemma RelatedIsJoined(sorter: seq<Candidate> -> seq<Candidate>, s: State, a: Arrival) returns (t: Group)
    requires IsSorter(sorter) && Ascending(s.groups) && forall g <- s.groups :: g.id != 0
    requires !a.operational && FindRepeat(s.groups, a, 0).None?
    requires exists g <- s.groups :: Relates(g, a.record)
    ensures TopStory(s.groups, t, a.record) && Outcome(s, Place(sorter, s, a), t, a)
  {
    hide Outcome, Candidates, JoinStories, FindRepeat, Relates, IsSorter, Proposes, Proposals, TopStory, TopScore;
    SortedProposals(sorter, s, a.record);
    var cs := sorter(Candidates(s.groups, a.record));
    SomeProposal(s, cs, a.record);
    assert cs[0] in cs;
    t :| t in s.groups && Proposes(cs[0], t, a.record) && Relates(t, a.record);
    TopOfProposals(s, cs, t, a.record);
    JoinOutcome(s, a, cs, t);
  }

  lemma SomeProposal(s: State, cs: seq<Candidate>, r: Record)
    requires Proposals(s, cs, r) && exists g <- s.groups :: Relates(g, r)
    ensures cs != []
  {
    hide Proposes, Relates, Distinct;
    var x :| x in s.groups && Relates(x, r);
    var d :| d in cs && d.groupId == x.id;
  }

  lemma TopOfProposals(s: State, cs: seq<Candidate>, t: Group, r: Record)
    requires Ascending(s.groups) && Proposals(s, cs, r) && TopScore(cs) && cs != []
    requires t in s.groups && Proposes(cs[0], t, r) && Relates(t, r)
    ensures TopStory(s.groups, t, r)
  {
    hide Relates, Distinct, EvaluateEdge, Connects;
    forall o <- s.groups, j: nat | Relates(o, r) && BestMatch(o, j, r)
      ensures EvaluateEdge(o.members[j].last, r, 2000).score <= cs[0].edge.score
    {
      BelowTop(s, cs, r, o, j);
    }
    assert BestMatch(t, cs[0].memberIndex, r);
  }

  lemma BelowTop(s: State, cs: seq<Candidate>, r: Record, o: Group, j: nat)
    requires Ascending(s.groups) && Proposals(s, cs, r) && TopScore(cs) && cs != []
    requires o in s.groups && Relates(o, r) && BestMatch(o, j, r)
    ensures EvaluateEdge(o.members[j].last, r, 2000).score <= cs[0].edge.score
  {
    hide Relates, BestMatch, Distinct, EvaluateEdge, Ascending;
    var c :| c in cs && c.groupId == o.id;
    var y :| y in s.groups && Proposes(c, y, r);
    OnlyOne(s.groups, o);
    SameBest(o, j, c.memberIndex, r);
  }

  lemma SameBest(o: Group, i: nat, j: nat, r: Record)
    requires BestMatch(o, i, r) && BestMatch(o, j, r)
    ensures EvaluateEdge(o.members[i].last, r, 2000).score == EvaluateEdge(o.members[j].last, r, 2000).score
  {
    hide EvaluateEdge, Connects;
  }

  /** The record opens a story of its own; if 512 are pending the least recently active one has to leave first. */
  ghost predicate OpensAlone(s: State, s': State, a: Arrival) {
    && s'.nextId == s.nextId + 1 && s'.groups != [] && Alone(s'.groups[|s'.groups| - 1], s.nextId, a)
    && var kept := s'.groups[..|s'.groups| - 1];
       if |s.groups| < 512 then kept == s.groups && s'.forced == s.forced
       else
         && |kept| == |s.groups| - 1 && |s'.forced| == |s.forced| + 1 && s'.forced[..|s.forced|] == s.forced
         && var f := s'.forced[|s.forced|];
            && f in s.groups && (forall g <- s.groups :: f.lastActivity <= g.lastActivity)
            && forall g :: g in kept <==> g in s.groups && g.id != f.id
  }

  lemma OpenOpensAlone(s: State, a: Arrival)
    requires Ascending(s.groups)
    ensures OpensAlone(s, Open(s, a), a)
  {
    hide CountEmitted, Without, Alone, Ascending;
    var s' := Open(s, a);
    NewIsAlone(s.nextId, a);
    if |s.groups| >= MAX_PENDING_GROUPS {
      OldestLeaves(s, OldestIndex(s.groups));
    } else {
      assert s'.groups[..|s'.groups| - 1] == s.groups;
    }
  }

  lemma NewIsAlone(id: nat, a: Arrival)
    ensures Alone(NewGroup(id, a), id, a)
  {
  }

  lemma OldestLeaves(s: State, i: nat)
    requires Ascending(s.groups) && i < |s.groups|
    requires forall j :: 0 <= j < |s.groups| ==> s.groups[i].lastActivity <= s.groups[j].lastActivity
    ensures var s' := ForceOut(s, i);
            && |s'.groups| == |s.groups| - 1 && s'.forced == s.forced + [s.groups[i]] && s'.nextId == s.nextId
            && (forall g <- s.groups :: s.groups[i].lastActivity <= g.lastActivity)
            && forall g :: g in s'.groups <==> g in s.groups && g.id != s.groups[i].id
  {
    hide CountEmitted;
    Dropped(s.groups, i);
  }

  /** A record that repeats nothing opens a story of its own exactly when it is connected to none that is pending. */
  lemma UnrelatedIsAlone(sorter: seq<Candidate> -> seq<Candidate>, s: State, a: Arrival)
    requires IsSorter(sorter) && Ascending(s.groups) && forall g <- s.groups :: g.id != 0
    requires a.operational || (FindRepeat(s.groups, a, 0).None? && forall g <- s.groups :: !Relates(g, a.record))
    ensures OpensAlone(s, Place(sorter, s, a), a)
  {
    hide Candidates, JoinStories, FindRepeat, Relates, IsSorter, Open, OpensAlone, Proposals;
    OpenOpensAlone(s, a);
    if a.operational {
      SortedNothing(sorter);
    } else {
      SortedProposals(sorter, s, a.record);
    }
  }

  lemma SortedNothing(sorter: seq<Candidate> -> seq<Candidate>)
    requires IsSorter(sorter)
    ensures sorter([]) == []
  {
    var cs: seq<Candidate> := [];
    assert multiset(sorter(cs)) == multiset(cs);
    assert |sorter(cs)| == |multiset(sorter(cs))| == 0;
  }

  // ---------------------------------------------------------------- repeats

  /** The member saw the same activity at the same endpoint at most five seconds before or after. */
  predicate Repeated(m: Member, a: Arrival) {
    && m.first.endpoint == a.record.endpoint && m.fingerprint == a.fingerprint
    && m.lastSeen - 5000 <= a.eventMs <= m.lastSeen + 5000
  }

  predicate RepeatedIn(g: Group, a: Arrival) { exists m :: 0 <= m < |g.members| && Repeated(g.members[m], a) }

  /** The record is counted into member m of the i-th story, and nothing else changes. */
  predicate CountedInto(s: State, s': State, i: nat, m: nat, a: Arrival) {
    && i < |s.groups| && m < |s.groups[i].members| && |s'.groups| == |s.groups|
    && s'.forced == s.forced && s'.nextId == s.nextId
    && (forall k :: 0 <= k < |s.groups| && k != i ==> s'.groups[k] == s.groups[k])
    && var g, g' := s.groups[i], s'.groups[i];
       && g'.id == g.id && g'.connections == g.connections && g'.createdWall == g.createdWall
          && g'.lastActivity == a.wall
       && g'.recordsObserved == g.recordsObserved + 1 && |g'.members| == |g.members|
       && (forall k :: 0 <= k < |g.members| && k != m ==> g'.members[k] == g.members[k])
       && g'.members[m].first == g.members[m].first && g'.members[m].last == a.record
       && g'.members[m].lastSeen == a.eventMs && g'.members[m].repeatCount == g.members[m].repeatCount + 1
  }

  lemma RepeatedIsRepeats(m: Member, a: Arrival)
    ensures Repeated(m, a) <==> Repeats(m, a)
  {
  }

  /** The first story in id order, and its first member, that the record repeats; or there is none. */
  lemma {:induction false} RepeatFound(groups: seq<Group>, a: Arrival, g: nat)
    requires g <= |groups|
    ensures var r := FindRepeat(groups, a, g);
            if r.None? then forall i :: g <= i < |groups| ==> !RepeatedIn(groups[i], a)
            else
              && g <= r.value.0 < |groups| && r.value.1 < |groups[r.value.0].members|
              && Repeated(groups[r.value.0].members[r.value.1], a)
              && (forall i :: g <= i < r.value.0 ==> !RepeatedIn(groups[i], a))
              && (forall k :: 0 <= k < r.value.1 ==> !Repeated(groups[r.value.0].members[k], a))
              && groups[r.value.0] in groups && RepeatedIn(groups[r.value.0], a)
    decreases |groups| - g
  {
    if g < |groups| {
      forall k | 0 <= k < |groups[g].members|
        ensures Repeated(groups[g].members[k], a) <==> Repeats(groups[g].members[k], a)
      {
        RepeatedIsRepeats(groups[g].members[k], a);
      }
      hide Repeats, Repeated;
      RepeatFound(groups, a, g + 1);
    }
  }

  /** A record of an activity that a pending member has just seen is counted into the first such member. */
  lemma RepeatIsCounted(sorter: seq<Candidate> -> seq<Candidate>, s: State, a: Arrival) returns (i: nat, m: nat)
    requires !a.operational && exists g <- s.groups :: RepeatedIn(g, a)
    ensures i < |s.groups| && m < |s.groups[i].members| && Repeated(s.groups[i].members[m], a)
    ensures forall k :: 0 <= k < i ==> !RepeatedIn(s.groups[k], a)
    ensures CountedInto(s, Place(sorter, s, a), i, m, a)
  {
    hide FindRepeat, Repeated, Candidates, RepeatedIn;
    RepeatFound(s.groups, a, 0);
    var g :| g in s.groups && RepeatedIn(g, a);
    var k :| 0 <= k < |s.groups| && s.groups[k] == g;
    var r := FindRepeat(s.groups, a, 0);
    i, m := r.value.0, r.value.1;
    CompactedIsCounted(s, i, m, a);
  }

  lemma CompactedIsCounted(s: State, i: nat, m: nat, a: Arrival)
    requires i < |s.groups| && m < |s.groups[i].members|
    ensures CountedInto(s, Repeat(s, i, m, a), i, m, a)
  {
  }

  // ---------------------------------------------------------------- one accepted line

  /** Which of the three ways an accepted line takes, decided by the fields: status lines stay alone;
      a repeat is counted; a record connected to a pending story joins it; any other opens a story. */
  lemma LineIsPlaced(sorter: seq<Candidate> -> seq<Candidate>, s: State, endpoint: string, line: string, wall: int)
    requires IsSorter(sorter) && Ascending(s.groups) && forall g <- s.groups :: g.id != 0
    requires Ingest(sorter, s, endpoint, line, wall).1
    ensures var a, s' := Observe(endpoint, line, wall), Ingest(sorter, s, endpoint, line, wall).0;
            if a.operational then OpensAlone(s, s', a)
            else if exists g <- s.groups :: RepeatedIn(g, a) then
              exists i: nat, m: nat :: CountedInto(s, s', i, m, a) && Repeated(s.groups[i].members[m], a)
            else if exists g <- s.groups :: Relates(g, a.record) then
              exists t :: TopStory(s.groups, t, a.record) && Outcome(s, s', t, a)
            else OpensAlone(s, s', a)
  {
    hide Observe, LooksLikeObject, ExactIdentity, Place, IsSorter, OpensAlone, CountedInto, Outcome, TopStory,
         RepeatedIn, Relates, Repeated, FindRepeat;
    var a := Observe(endpoint, line, wall);
    var s1 := Remember(s, ExactIdentity(a.record));
    var s2 := s1.(n := s1.n.(accepted := s1.n.accepted + 1, represented := s1.n.represented + 1));
    var s' := Ingest(sorter, s, endpoint, line, wall).0;
    assert s' == Place(sorter, s2, a);
    assert s2.groups == s.groups && s2.forced == s.forced && s2.nextId == s.nextId;
    if a.operational {
      UnrelatedIsAlone(sorter, s2, a);
      SameAlone(s, s2, s', a);
    } else if exists g <- s.groups :: RepeatedIn(g, a) {
      var i, m := RepeatIsCounted(sorter, s2, a);
      SameCounted(s, s2, s', i, m, a);
    } else {
      NoRepeat(s2, a);
      if exists g <- s.groups :: Relates(g, a.record) {
        var t := RelatedIsJoined(sorter, s2, a);
        SameOutcome(s, s2, s', t, a);
      } else {
        UnrelatedIsAlone(sorter, s2, a);
        SameAlone(s, s2, s', a);
      }
    }
  }

  lemma NoRepeat(s: State, a: Arrival)
    requires forall g <- s.groups :: !RepeatedIn(g, a)
    ensures FindRepeat(s.groups, a, 0).None?
  {
    hide Repeated, RepeatedIn, FindRepeat;
    RepeatFound(s.groups, a, 0);
  }

  predicate SamePending(s: State, s2: State) {
    s2.groups == s.groups && s2.forced == s.forced && s2.nextId == s.nextId
  }

  lemma SameAlone(s: State, s2: State, s': State, a: Arrival)
    requires SamePending(s, s2) && OpensAlone(s2, s', a)
    ensures OpensAlone(s, s', a)
  {
  }

  lemma SameCounted(s: State, s2: State, s': State, i: nat, m: nat, a: Arrival)
    requires SamePending(s, s2) && CountedInto(s2, s', i, m, a)
    ensures CountedInto(s, s', i, m, a)
  {
  }

  lemma SameOutcome(s: State, s2: State, s': State, t: Group, a: Arrival)
    requires SamePending(s, s2) && Outcome(s2, s', t, a)
    ensures Outcome(s, s', t, a)
  {
    hide JoinedTo, Relates, Alone;
  }
}
