/** The invariant of the unified stream engine over any run of lines and drains, and what it says about the groups. */
module UnifiedInvariant {
  import opened Text
  import opened UnifiedSpec
  import opened UnifiedHistory
  import opened UnifiedPlaces
  import opened UnifiedSteps
  import opened UnifiedMerge
  import opened UnifiedJoin

  // ---------------------------------------------------------------- counters

  function CountConnected(gs: seq<Group>): nat {
    if gs == [] then 0
    else CountConnected(gs[..|gs| - 1]) + if gs[|gs| - 1].connections == [] then 0 else 1
  }

  /** Every group that ever left is counted once, as connected or as single-source. */
  ghost predicate CountsOk(n: Counters, out: seq<Group>) {
    n.emitted == |out| && n.connected == CountConnected(out) && n.single == |out| - CountConnected(out)
  }

  lemma {:induction false} CountsOneMore(n: Counters, out: seq<Group>, g: Group)
    requires CountsOk(n, out)
    ensures CountsOk(CountEmitted(n, g), out + [g])
  {
    assert (out + [g])[..|out|] == out;
  }

  lemma {:induction false} CountsManyMore(n: Counters, out: seq<Group>, gs: seq<Group>)
    requires CountsOk(n, out)
    ensures CountsOk(CountAll(n, gs), out + gs)
  {
    if gs == [] {
      assert out + gs == out;
    } else {
      CountsManyMore(n, out, gs[..|gs| - 1]);
      CountsOneMore(CountAll(n, gs[..|gs| - 1]), out + gs[..|gs| - 1], gs[|gs| - 1]);
      assert out + gs == out + gs[..|gs| - 1] + [gs[|gs| - 1]];
    }
  }

  // ---------------------------------------------------------------- the dedup window

  function Identities(acc: seq<Arrival>): (ids: seq<string>)
    ensures |ids| == |acc|
    ensures forall k :: 0 <= k < |acc| ==> ids[k] == ExactIdentity(acc[k].record)
  {
    if acc == [] then [] else Identities(acc[..|acc| - 1]) + [ExactIdentity(acc[|acc| - 1].record)]
  }

  function WindowStart(n: nat): nat { if n <= MAX_IDENTITIES then 0 else n - MAX_IDENTITIES }

  predicate NoRepeats(ids: seq<string>) { forall i, j :: 0 <= i < j < |ids| ==> ids[i] != ids[j] }

  /** The window remembers exactly the identities of the last 8192 accepted records, no two of them equal. */
  ghost predicate WindowOk(recent: set<string>, order: seq<string>, acc: seq<Arrival>) {
    && order == Identities(acc)[WindowStart(|acc|)..]
    && NoRepeats(order) && recent == set id | id in order
  }

  lemma TrimOnce(recent: set<string>, order: seq<string>)
    requires |order| <= MAX_IDENTITIES + 1
    ensures Trim(recent, order)
         == if |order| > MAX_IDENTITIES then (recent - {order[0]}, order[1..]) else (recent, order)
  {
  }

  lemma RememberKeepsWindow(s: State, acc: seq<Arrival>, a: Arrival)
    requires WindowOk(s.recent, s.order, acc) && ExactIdentity(a.record) !in s.recent
    ensures var s' := Remember(s, ExactIdentity(a.record)); WindowOk(s'.recent, s'.order, acc + [a])
  {
    hide ExactIdentity, Trim, NoRepeats;
    var id := ExactIdentity(a.record);
    var grown := s.order + [id];
    TrimOnce(s.recent + {id}, grown);
    IdentitiesGrow(acc, a);
    GrownWindow(s.recent, s.order, id);
    if |grown| > MAX_IDENTITIES {
      DropOldest(s.recent + {id}, grown);
      assert NoRepeats(grown[1..]) by { TailHasNoRepeats(grown); }
    }
  }

  lemma IdentitiesGrow(acc: seq<Arrival>, a: Arrival)
    ensures Identities(acc + [a]) == Identities(acc) + [ExactIdentity(a.record)]
  {
    hide ExactIdentity;
    assert (acc + [a])[..|acc|] == acc;
  }

  lemma GrownWindow(recent: set<string>, order: seq<string>, id: string)
    requires NoRepeats(order) && recent == (set x | x in order) && id !in recent
    ensures NoRepeats(order + [id]) && recent + {id} == set x | x in order + [id]
  {
  }

  lemma TailHasNoRepeats(order: seq<string>)
    requires order != [] && NoRepeats(order)
    ensures NoRepeats(order[1..])
  {
  }

  lemma DropOldest(recent: set<string>, order: seq<string>)
    requires order != [] && NoRepeats(order) && recent == set id | id in order
    ensures recent - {order[0]} == set id | id in order[1..]
  {
    forall id ensures id in recent && id != order[0] <==> id in order[1..] {
      if id in recent && id != order[0] {
        var i :| 0 <= i < |order| && order[i] == id;
        assert order[1..][i - 1] == id;
      }
      if id in order[1..] {
        var i :| 0 <= i < |order[1..]| && order[1..][i] == id;
        assert order[i + 1] == id;
      }
    }
  }

  // ---------------------------------------------------------------- the invariant

  /** Everything that left the pending list: handed out by drains, or forced out and waiting for the next drain. */
  function Out(s: State, h: History): seq<Group> { h.emitted + s.forced }

  ghost predicate Inv(s: State, h: History) {
    && Kept(s.groups, Out(s, h), s.nextId, h)
    && CountsOk(s.n, Out(s, h))
    && s.n.accepted == s.n.represented == |h.accepted|
    && WindowOk(s.recent, s.order, h.accepted)
    && |s.groups| <= MAX_PENDING_GROUPS
  }

  lemma EmptyHolds(s: State, h: History)
    requires IsFresh(s) && IsBlank(h)
    ensures Inv(s, h)
  {
  }

  // ---------------------------------------------------------------- placing a record

  /** What placing changes besides the groups: at most one group is forced out, and it is counted. */
  ghost predicate Recounted(s: State, s': State) {
    && s'.recent == s.recent && s'.order == s.order
    && s'.n.accepted == s.n.accepted && s'.n.represented == s.n.represented
    && (|| (s'.forced == s.forced && SameTotals(s.n, s'.n))
        || exists g :: s'.forced == s.forced + [g] && SameTotals(CountEmitted(s.n, g), s'.n))
  }

  predicate SameTotals(n: Counters, n': Counters) {
    n'.emitted == n.emitted && n'.connected == n.connected && n'.single == n.single
  }

  lemma RecountedKeepsCounts(s: State, s': State, h: History)
    requires Recounted(s, s') && CountsOk(s.n, Out(s, h))
    ensures CountsOk(s'.n, Out(s', h))
  {
    if s'.forced != s.forced {
      var g :| s'.forced == s.forced + [g] && SameTotals(CountEmitted(s.n, g), s'.n);
      CountsOneMore(s.n, Out(s, h), g);
      assert Out(s', h) == Out(s, h) + [g];
    }
  }

  lemma OpenKeeps(s: State, h: History, a: Arrival) returns (h': History)
    requires Kept(s.groups, Out(s, h), s.nextId, h) && Marked(a) && |s.groups| <= MAX_PENDING_GROUPS
    ensures h'.accepted == h.accepted + [a] && h'.emitted == h.emitted
    ensures var s' := Open(s, a);
            Kept(s'.groups, Out(s', h'), s'.nextId, h') && Recounted(s, s') && |s'.groups| <= MAX_PENDING_GROUPS
  {
    hide Kept, NewGroup, Recounted;
    OpenRecounts(s, a);
    if |s.groups| >= MAX_PENDING_GROUPS {
      var i := OldestIndex(s.groups);
      EmitKeeps(s.groups, Out(s, h), s.nextId, h, i);
      assert Out(s, h) + [s.groups[i]] == h.emitted + (s.forced + [s.groups[i]]);
      h' := AppendKeeps(Without(s.groups, i), Out(s, h) + [s.groups[i]], s.nextId, h, a);
    } else {
      h' := AppendKeeps(s.groups, Out(s, h), s.nextId, h, a);
    }
  }

  lemma OpenRecounts(s: State, a: Arrival)
    requires |s.groups| <= MAX_PENDING_GROUPS
    ensures Recounted(s, Open(s, a)) && |Open(s, a).groups| <= MAX_PENDING_GROUPS
  {
    hide NewGroup;
    if |s.groups| >= MAX_PENDING_GROUPS {
      var g := s.groups[OldestIndex(s.groups)];
      assert Open(s, a).forced == s.forced + [g];
      assert SameTotals(CountEmitted(s.n, g), Open(s, a).n);
    }
  }

  lemma {:induction false} MergeNeverGrows(m: Merging, target: nat, cs: seq<Candidate>)
    ensures |MergeAll(m, target, cs).groups| <= |m.groups|
  {
    if cs != [] { MergeNeverGrows(m, target, cs[..|cs| - 1]); }
  }

  lemma JoinRecounts(s: State, a: Arrival, cs: seq<Candidate>)
    requires cs != [] && |s.groups| <= MAX_PENDING_GROUPS
    ensures Recounted(s, JoinStories(s, a, cs)) && |JoinStories(s, a, cs).groups| <= MAX_PENDING_GROUPS
  {
    hide MergeAll, Extended, NewGroup;
    MergeNeverGrows(StartMerge(s, cs[0]), cs[0].groupId, cs[1..]);
    var m := MergeAll(StartMerge(s, cs[0]), cs[0].groupId, cs[1..]);
    var t := IndexOf(m.groups, cs[0].groupId);
    if IndexOf(s.groups, cs[0].groupId).Some? && t.Some? && |m.groups[t.value].members| >= MAX_MEMBERS {
      assert JoinStories(s, a, cs).forced == s.forced + [m.groups[t.value]];
      assert SameTotals(CountEmitted(s.n, m.groups[t.value]), JoinStories(s, a, cs).n);
    }
  }

  /** A record is placed exactly once, whichever of the three ways it goes. */
  lemma PlaceKeeps(sorter: seq<Candidate> -> seq<Candidate>, s: State, h: History, a: Arrival) returns (h': History)
    requires IsSorter(sorter) && Marked(a)
    requires Kept(s.groups, Out(s, h), s.nextId, h) && |s.groups| <= MAX_PENDING_GROUPS
    ensures h'.accepted == h.accepted + [a] && h'.emitted == h.emitted
    ensures var s' := Place(sorter, s, a);
            Kept(s'.groups, Out(s', h'), s'.nextId, h') && Recounted(s, s') && |s'.groups| <= MAX_PENDING_GROUPS
  {
    hide Kept, Open, JoinStories, FindRepeat, Candidates, Compacted;
    var repeat: Option<(nat, nat)> := if a.operational then None else FindRepeat(s.groups, a, 0);
    var raw := if a.operational then [] else Candidates(s.groups, a.record);
    var cs := sorter(raw);
    assert multiset(cs) == multiset(raw);
    if repeat.Some? {
      h' := RepeatKeeps(s.groups, Out(s, h), s.nextId, h, repeat.value.0, repeat.value.1, a);
    } else if cs == [] {
      h' := OpenKeeps(s, h, a);
    } else {
      MultisetEmpty(raw, cs);
      SortedCandidates(s, h, a, cs);
      h' := JoinKeeps(s, h, a, cs);
      JoinRecounts(s, a, cs);
    }
  }

  lemma MultisetEmpty(raw: seq<Candidate>, cs: seq<Candidate>)
    requires multiset(cs) == multiset(raw) && cs != []
    ensures raw != []
  {
    assert cs[0] in multiset(cs);
  }

  lemma SortedCandidates(s: State, h: History, a: Arrival, cs: seq<Candidate>)
    requires Kept(s.groups, Out(s, h), s.nextId, h)
    requires multiset(cs) == multiset(Candidates(s.groups, a.record))
    ensures Distinct(cs) && forall c <- cs :: CandidateOk(c, s.groups, a.record)
  {
    hide Core, CandidateIn, GroupBacked, BestOf;
    CoreParts(s.groups, Out(s, h), s.nextId, h);
    PositiveIds(s.groups, Out(s, h), s.nextId);
    var raw := Candidates(s.groups, a.record);
    CandidatesDistinct(s.groups, a.record);
    CandidatesSound(s.groups, a.record);
    SortedStayDistinct(raw, cs);
    forall c <- cs ensures CandidateOk(c, s.groups, a.record) {
      assert c in raw;
      var g :| g in s.groups && Strongest(c, g, a.record);
    }
  }

  lemma PositiveIds(groups: seq<Group>, out: seq<Group>, nextId: nat)
    requires IdsOk(groups, out, nextId)
    ensures forall g <- groups :: g.id != 0
  {
  }
}
