/** Which pending stories a new record matches, and what merging them keeps. */
module UnifiedMerge {
  import opened Evidence
  import opened UnifiedSpec
  import opened UnifiedPlaces

  // ---------------------------------------------------------------- the best match of one group

  predicate UsableMatch(m: Member, r: Record) { Usable(m.last, r, EdgeTo(m, r)) }

  /** `c` names a member of `g` with a usable match to `r`. */
  predicate CandidateIn(c: Candidate, g: Group, r: Record) {
    && c.groupId == g.id && c.memberIndex < |g.members|
    && UsableMatch(g.members[c.memberIndex], r) && c.edge == EdgeTo(g.members[c.memberIndex], r)
  }

  /** No usable match of `g` scores more than `c`, and none before it scores as much. */
  predicate BestOf(c: Candidate, g: Group, r: Record, n: nat)
    requires n <= |g.members|
  {
    forall i :: 0 <= i < n && UsableMatch(g.members[i], r) ==>
      && EdgeTo(g.members[i], r).score <= c.edge.score
      && (i < c.memberIndex ==> EdgeTo(g.members[i], r).score < c.edge.score)
  }

  /** What the scan has found after the first i members. */
  predicate Scanned(best: Candidate, g: Group, r: Record, i: nat)
    requires i <= |g.members|
  {
    if best.groupId == 0 then forall j :: 0 <= j < i ==> !UsableMatch(g.members[j], r)
    else CandidateIn(best, g, r) && best.memberIndex < i && BestOf(best, g, r, i)
  }

  /** The scan of one group returns its strongest usable match, the earliest
      among equals, or nothing if there is none. */
  lemma {:induction false} BestFromScans(g: Group, r: Record, i: nat, best: Candidate)
    requires g.id != 0 && i <= |g.members| && Scanned(best, g, r, i)
    ensures Scanned(BestFrom(g, r, i, best), g, r, |g.members|)
    decreases |g.members| - i
  {
    hide Usable, EvaluateEdge;
    if i < |g.members| {
      var e := EdgeTo(g.members[i], r);
      var better := UsableMatch(g.members[i], r) && (best.groupId == 0 || e.score > best.edge.score);
      BestFromScans(g, r, i + 1, if better then Candidate(g.id, i, e) else best);
    }
  }

  predicate Distinct(cs: seq<Candidate>) {
    forall i, j :: 0 <= i < j < |cs| ==> cs[i].groupId != cs[j].groupId
  }

  /** A candidate of an activity group, its strongest. */
  predicate Strongest(c: Candidate, g: Group, r: Record) {
    CandidateIn(c, g, r) && !g.operationalOnly && BestOf(c, g, r, |g.members|)
  }

  ghost predicate CandidateOk(c: Candidate, groups: seq<Group>, r: Record) {
    exists g <- groups :: CandidateIn(c, g, r) && !g.operationalOnly
  }

  predicate Matches(g: Group, r: Record) {
    !g.operationalOnly && exists i :: 0 <= i < |g.members| && UsableMatch(g.members[i], r)
  }

  /** The candidate one group contributes, if it does. */
  lemma OneGroup(g: Group, r: Record)
    requires g.id != 0
    ensures var best := BestFrom(g, r, 0, NO_CANDIDATE);
            && (best.groupId != 0 && !g.operationalOnly <==> Matches(g, r))
            && (Matches(g, r) ==> Strongest(best, g, r))
  {
    hide UsableMatch, EdgeTo;
    BestFromScans(g, r, 0, NO_CANDIDATE);
  }

  /** Every candidate is the strongest usable match of some activity group. */
  lemma {:induction false} CandidatesSound(groups: seq<Group>, r: Record)
    requires forall g <- groups :: g.id != 0
    ensures forall c <- Candidates(groups, r) :: exists g <- groups :: Strongest(c, g, r)
  {
    if groups == [] { return; }
    var front, g := groups[..|groups| - 1], groups[|groups| - 1];
    CandidatesSound(front, r);
    OneGroup(g, r);
    hide Strongest, BestFrom, Matches;
    forall c <- Candidates(groups, r) ensures exists x <- groups :: Strongest(c, x, r) {
      if c in Candidates(front, r) {
        var x :| x in front && Strongest(c, x, r);
        assert x in groups;
      } else {
        assert g in groups;
      }
    }
  }

  /** Every activity group with a usable match contributes a candidate. */
  lemma {:induction false} CandidatesComplete(groups: seq<Group>, r: Record)
    requires forall g <- groups :: g.id != 0
    ensures forall g <- groups :: Matches(g, r) ==> exists c <- Candidates(groups, r) :: c.groupId == g.id
  {
    if groups == [] { return; }
    var front, g := groups[..|groups| - 1], groups[|groups| - 1];
    CandidatesComplete(front, r);
    OneGroup(g, r);
    BestHasId(g, r);
    hide Strongest, BestFrom, Matches;
    var before, all := Candidates(front, r), Candidates(groups, r);
    assert before <= all;
    assert Matches(g, r) ==> BestFrom(g, r, 0, NO_CANDIDATE) in all;
    hide Candidates;
    forall x <- groups | Matches(x, r) ensures exists c <- all :: c.groupId == x.id {
      if x in front {
        var c :| c in before && c.groupId == x.id;
        assert c in all;
      }
    }
  }

  lemma BestHasId(g: Group, r: Record)
    requires g.id != 0
    ensures var best := BestFrom(g, r, 0, NO_CANDIDATE); best.groupId == 0 || best.groupId == g.id
  {
    hide UsableMatch, EdgeTo;
    BestFromScans(g, r, 0, NO_CANDIDATE);
  }

  /** No group contributes two candidates. */
  lemma {:induction false} CandidatesDistinct(groups: seq<Group>, r: Record)
    requires Ascending(groups) && forall g <- groups :: g.id != 0
    ensures Distinct(Candidates(groups, r))
    ensures forall c <- Candidates(groups, r) :: HasId(groups, c.groupId)
  {
    if groups == [] { return; }
    var front, g := groups[..|groups| - 1], groups[|groups| - 1];
    CandidatesDistinct(front, r);
    BestHasId(g, r);
    hide BestFrom;
    forall c <- Candidates(groups, r) ensures HasId(groups, c.groupId) {
      if c in Candidates(front, r) {
        var x :| x in front && x.id == c.groupId;
        assert x in groups;
      } else {
        assert g in groups;
      }
    }
    forall c <- Candidates(front, r) ensures c.groupId < g.id {
      var i :| 0 <= i < |front| && front[i].id == c.groupId;
    }
  }

  // ---------------------------------------------------------------- sorting the candidates

  lemma MultiplicityTwo(cs: seq<Candidate>, i: nat, j: nat)
    requires i < j < |cs| && cs[i] == cs[j]
    ensures multiset(cs)[cs[i]] >= 2
  {
    assert cs == cs[..j] + [cs[j]] + cs[j + 1..];
    assert cs[..j][i] == cs[i];
    assert multiset(cs[..j])[cs[i]] >= 1;
  }

  lemma {:induction false} DistinctOnce(cs: seq<Candidate>, c: Candidate)
    requires Distinct(cs)
    ensures multiset(cs)[c] <= 1
  {
    if cs != [] {
      var front := cs[..|cs| - 1];
      DistinctOnce(front, c);
      assert cs == front + [cs[|cs| - 1]];
      if c == cs[|cs| - 1] {
        assert c !in front by {
          assert forall i :: 0 <= i < |front| ==> front[i] == cs[i];
        }
      }
    }
  }

  lemma SortedStayDistinct(cs: seq<Candidate>, ss: seq<Candidate>)
    requires Distinct(cs) && multiset(ss) == multiset(cs)
    ensures Distinct(ss) && (forall c :: c in ss <==> c in cs)
  {
    forall c ensures c in ss <==> c in cs {
      assert c in multiset(ss) <==> c in multiset(cs);
    }
    forall i, j | 0 <= i < j < |ss| ensures ss[i].groupId != ss[j].groupId {
      if ss[i] == ss[j] {
        MultiplicityTwo(ss, i, j);
        DistinctOnce(cs, ss[i]);
        assert false;
      }
      assert ss[i] in ss && ss[j] in ss;
      var x :| 0 <= x < |cs| && cs[x] == ss[i];
      var y :| 0 <= y < |cs| && cs[y] == ss[j];
    }
  }
}
