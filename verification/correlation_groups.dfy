/** What linking two records keeps: every group is a justified chain of distinct records, at most 8 long, at most
    500 of them, and every linked record still in a ring sits in a live group at least as recent as itself. */
module CorrelationGroups {
  import opened Text
  import opened Evidence
  import opened CorrelationSpec

  // ---------------------------------------------------------------- groups

  /** Member `j` joined because it matched the earlier member `i` of another endpoint. */
  predicate Justifies(members: seq<GroupMember>, i: nat, j: nat)
    requires i < |members| && j < |members|
  {
    && members[i].record.endpoint != members[j].record.endpoint
    && EvaluateEdge(members[i].record, members[j].record, JOIN_WINDOW_MS).matched
    && members[j].edge == Some(EvaluateEdge(members[i].record, members[j].record, JOIN_WINDOW_MS))
  }

  predicate HasReason(members: seq<GroupMember>, j: nat)
    requires j < |members|
  {
    exists i :: 0 <= i < j && Justifies(members, i, j)
  }

  /** The first member is the anchor; every other one matched a member before it. */
  predicate Justified(members: seq<GroupMember>) {
    && members != [] && members[0].edge == None
    && forall j :: 1 <= j < |members| ==> HasReason(members, j)
  }

  ghost predicate ChainOk(c: Chain, now: int) {
    && 2 <= |c.members| <= MAX_GROUP_SIZE && c.revision == |c.members| - 1
    && c.updated <= now && Justified(c.members)
  }

  ghost predicate HoldsId(c: Chain, id: nat) {
    exists i :: 0 <= i < |c.members| && c.members[i].id == id
  }

  predicate DistinctIds(members: seq<GroupMember>) {
    forall i, j :: 0 <= i < j < |members| ==> members[i].id != members[j].id
  }

  /** No record sits in two groups, or twice in one. */
  ghost predicate OneGroupEach(book: Book) {
    && (forall g <- book.chains :: DistinctIds(book.chains[g].members))
    && forall g, h, id: nat ::
         g in book.chains && h in book.chains && HoldsId(book.chains[g], id) && HoldsId(book.chains[h], id) ==> g == h
  }

  ghost predicate AllChainsOk(book: Book, now: int) {
    forall g <- book.chains :: 1 <= g < book.nextGroup && ChainOk(book.chains[g], now)
  }

  ghost predicate BookOk(book: Book, now: int) {
    && book.nextGroup >= 1 && |book.chains| <= MAX_ACTIVE_GROUPS
    && AllChainsOk(book, now) && OneGroupEach(book)
  }

  // ---------------------------------------------------------------- ring records

  ghost predicate SitsIn(x: RingRecord, c: Chain) {
    exists i :: 0 <= i < |c.members| && c.members[i].id == x.id && c.members[i].record == x.record
  }

  /** A record without a group is in none; one with a group sits in that live group, and is not newer than
      the group's last change. */
  ghost predicate Placed(x: RingRecord, book: Book) {
    && (x.group != 0 ==>
          && x.group in book.chains && SitsIn(x, book.chains[x.group])
          && x.record.time != 0 && x.record.time <= book.chains[x.group].updated)
    && forall g <- book.chains :: HoldsId(book.chains[g], x.id) ==> g == x.group
  }

  ghost predicate RecordOk(x: RingRecord, book: Book) {
    |x.partners| <= MAX_JOINS_PER_RECORD && Placed(x, book)
  }

  // ---------------------------------------------------------------- appending a member

  lemma AppendedIsJustified(members: seq<GroupMember>, x: GroupMember, i: nat)
    requires Justified(members) && i < |members| && Justifies(members + [x], i, |members|)
    ensures Justified(members + [x])
  {
    hide EvaluateEdge;
    var more := members + [x];
    forall j | 1 <= j < |more| ensures HasReason(more, j) {
      if j < |members| {
        assert HasReason(members, j);
        var k :| 0 <= k < j && Justifies(members, k, j);
        assert Justifies(more, k, j);
      }
    }
  }

  lemma PairIsJustified(a: RingRecord, b: RingRecord, edge: Edge)
    requires edge == EdgeOf(a, b) && edge.matched && a.record.endpoint != b.record.endpoint
    ensures Justified([Anchor(a), Joined(b, edge)])
  {
    hide EvaluateEdge;
    assert Justifies([Anchor(a), Joined(b, edge)], 0, 1);
  }

  /** `x` joins `c` through its partner `y`, which sits in it. */
  lemma ExtendedChain(c: Chain, x: RingRecord, y: RingRecord, edge: Edge, now: int) returns (c': Chain)
    requires ChainOk(c, now) && |c.members| < MAX_GROUP_SIZE && SitsIn(y, c) && x.record.endpoint != y.record.endpoint
    requires edge == EdgeOf(y, x) && edge.matched
    ensures c' == Chain(c.members + [Joined(x, edge)], c.revision + 1, now) && ChainOk(c', now)
  {
    hide EvaluateEdge, Justified;
    var i :| 0 <= i < |c.members| && c.members[i].id == y.id && c.members[i].record == y.record;
    c' := Chain(c.members + [Joined(x, edge)], c.revision + 1, now);
    assert Justifies(c.members + [Joined(x, edge)], i, |c.members|);
    AppendedIsJustified(c.members, Joined(x, edge), i);
  }

  // ---------------------------------------------------------------- what linking does to the book

  /** `book'` differs from `book` at most in the chain of one group, which holds its old records and the gained ones. */
  ghost predicate Changes(book: Book, book': Book, g: nat, c: Chain, gained: set<nat>, now: int) {
    && book'.chains == book.chains[g := c]
    && ChainOk(c, now) && c.updated == now && DistinctIds(c.members)
    && (forall id: nat :: HoldsId(c, id) <==> id in gained || HoldsId(ChainAt(book, g), id))
    && (forall h <- book.chains, id <- gained :: !HoldsId(book.chains[h], id))
    && (g in book.chains ==> book.chains[g].members <= c.members && book'.nextGroup == book.nextGroup)
    && (g !in book.chains ==> g == book.nextGroup && book'.nextGroup == g + 1 && |book.chains| < MAX_ACTIVE_GROUPS)
    && g >= 1
  }

  lemma ChangeKeepsCount(book: Book, book': Book, g: nat, c: Chain)
    requires |book.chains| <= MAX_ACTIVE_GROUPS && book'.chains == book.chains[g := c]
    requires g !in book.chains ==> |book.chains| < MAX_ACTIVE_GROUPS
    ensures |book'.chains| <= MAX_ACTIVE_GROUPS
  {
    assert book'.chains.Keys == book.chains.Keys + {g};
    assert |book'.chains| == |book'.chains.Keys| && |book.chains| == |book.chains.Keys|;
    if g in book.chains { assert book'.chains.Keys == book.chains.Keys; }
  }

  lemma ChangeKeepsOneGroupEach(book: Book, book': Book, g: nat, c: Chain, gained: set<nat>, now: int)
    requires OneGroupEach(book) && Changes(book, book', g, c, gained, now)
    ensures OneGroupEach(book')
  {
    hide ChainOk, HoldsId, DistinctIds;
    EmptyHoldsNothing(book, g);
  }

  lemma EmptyHoldsNothing(book: Book, g: nat)
    ensures g !in book.chains ==> forall id :: !HoldsId(ChainAt(book, g), id)
  {
  }

  lemma ChangeKeepsBook(book: Book, book': Book, g: nat, c: Chain, gained: set<nat>, now: int)
    requires BookOk(book, now) && Changes(book, book', g, c, gained, now)
    ensures BookOk(book', now)
  {
    hide ChainOk, HoldsId, OneGroupEach, DistinctIds;
    ChangeKeepsCount(book, book', g, c);
    ChangeKeepsOneGroupEach(book, book', g, c, gained, now);
  }

  /** A record that is not gained keeps its place. */
  lemma ChangeKeepsPlace(book: Book, book': Book, g: nat, c: Chain, gained: set<nat>, now: int, x: RingRecord)
    requires AllChainsOk(book, now) && Changes(book, book', g, c, gained, now) && Placed(x, book) && x.id !in gained
    ensures Placed(x, book')
  {
    hide HoldsId, DistinctIds, SitsIn, Justified;
    EmptyHoldsNothing(book, g);
    if x.group == g && g in book.chains { StillSits(x, book.chains[g], c); }
  }

  lemma StillSits(x: RingRecord, c: Chain, c': Chain)
    requires SitsIn(x, c) && c.members <= c'.members
    ensures SitsIn(x, c')
  {
  }

  /** A gained record takes the group as its own. */
  lemma GainedIsPlaced(book: Book, book': Book, g: nat, c: Chain, gained: set<nat>, now: int, x: RingRecord)
    requires Changes(book, book', g, c, gained, now) && x.id in gained && x.group == g && SitsIn(x, c)
    requires x.record.time != 0 && x.record.time <= now
    ensures Placed(x, book')
  {
    hide HoldsId, DistinctIds, SitsIn, ChainOk;
  }

  // ---------------------------------------------------------------- the three ways to link

  lemma NotInAny(x: RingRecord, book: Book, now: int)
    requires Placed(x, book) && x.group == 0 && AllChainsOk(book, now)
    ensures forall h <- book.chains :: !HoldsId(book.chains[h], x.id)
  {
    hide HoldsId, SitsIn, ChainOk;
  }

  lemma NewGroupChanges(book: Book, a: RingRecord, b: RingRecord, edge: Edge, now: int)
    requires BookOk(book, now) && Placed(a, book) && Placed(b, book) && a.id != b.id && a.group == 0 && b.group == 0
    requires edge == EdgeOf(a, b) && edge.matched && a.record.endpoint != b.record.endpoint
             && |book.chains| < MAX_ACTIVE_GROUPS
    ensures var l := AssignOrExtend(book, a, b, edge, now);
            l.group == book.nextGroup && Changes(book, l.book, l.group, Chain([Anchor(a), Joined(b, edge)], 1, now),
                                                 {a.id, b.id}, now)
  {
    hide Placed, OneGroupEach, ChainOk, Justified, EvaluateEdge, Extend;
    NotInAny(a, book, now);
    NotInAny(b, book, now);
    PairIsJustified(a, b, edge);
    PairHolds(a, b, edge, now);
    EmptyHoldsNothing(book, book.nextGroup);
    assert book.nextGroup !in book.chains;
  }

  lemma PairHolds(a: RingRecord, b: RingRecord, edge: Edge, now: int)
    requires a.id != b.id && Justified([Anchor(a), Joined(b, edge)])
    ensures var c := Chain([Anchor(a), Joined(b, edge)], 1, now);
            ChainOk(c, now) && DistinctIds(c.members) && forall id: nat :: HoldsId(c, id) <==> id in {a.id, b.id}
  {
    hide Justified;
    var c := Chain([Anchor(a), Joined(b, edge)], 1, now);
    assert c.members[0].id == a.id && c.members[1].id == b.id;
  }

  /** `x`, in no group, joins the group of its partner `y`. */
  lemma ExtensionChanges(book: Book, x: RingRecord, y: RingRecord, edge: Edge, now: int)
    requires BookOk(book, now) && Placed(x, book) && Placed(y, book) && x.group == 0 && y.group != 0
    requires edge == EdgeOf(y, x) && edge.matched && x.record.endpoint != y.record.endpoint
    requires |ChainAt(book, y.group).members| < MAX_GROUP_SIZE
    ensures var c := book.chains[y.group];
            Changes(book, Extend(book, y.group, x, edge, now), y.group,
                    Chain(c.members + [Joined(x, edge)], c.revision + 1, now), {x.id}, now)
  {
    hide HoldsId, SitsIn, ChainOk, EvaluateEdge, DistinctIds;
    NotInAny(x, book, now);
    var c := book.chains[y.group];
    var c' := ExtendedChain(c, x, y, edge, now);
    AppendedHolds(c, x, edge, now);
  }

  lemma AppendedHolds(c: Chain, x: RingRecord, edge: Edge, now: int)
    requires DistinctIds(c.members) && !HoldsId(c, x.id)
    ensures var c' := Chain(c.members + [Joined(x, edge)], c.revision + 1, now);
            DistinctIds(c'.members) && forall id: nat :: HoldsId(c', id) <==> id in {x.id} || HoldsId(c, id)
  {
    var c' := Chain(c.members + [Joined(x, edge)], c.revision + 1, now);
    forall id: nat ensures HoldsId(c', id) <==> id == x.id || HoldsId(c, id) {
      assert c'.members[|c.members|].id == x.id;
      if HoldsId(c, id) {
        var i :| 0 <= i < |c.members| && c.members[i].id == id;
        assert c'.members[i].id == id;
      }
    }
  }

  // ---------------------------------------------------------------- one link

  /** The two records of a link as the scan hands them over. */
  ghost predicate Linkable(book: Book, a: RingRecord, b: RingRecord, now: int) {
    && a.id != b.id && a.record.endpoint != b.record.endpoint && EdgeOf(a, b).matched
    && Placed(a, book) && Placed(b, book) && a.record.time <= now && b.record.time <= now
  }

  /** The group that grew, if any, and the records it gained. */
  function Gained(book: Book, a: RingRecord, b: RingRecord, now: int): set<nat> {
    var l := AssignOrExtend(book, a, b, EdgeOf(a, b), now);
    if l.group == 0 then {}
    else (if a.group == 0 then {a.id} else {}) + (if b.group == 0 then {b.id} else {})
  }

  lemma LinkChanges(book: Book, a: RingRecord, b: RingRecord, now: int)
    requires BookOk(book, now) && Linkable(book, a, b, now)
    ensures var l := AssignOrExtend(book, a, b, EdgeOf(a, b), now);
            if l.group == 0 then
              l.book.chains == book.chains && l.book.nextGroup == book.nextGroup && l.a == a && l.b == b
            else
              && l.group in l.book.chains
              && Changes(book, l.book, l.group, l.book.chains[l.group], Gained(book, a, b, now), now)
  {
    hide BookOk, Placed, EvaluateEdge, Changes;
    var edge := EdgeOf(a, b);
    EdgeIsSymmetric(a.record, b.record, JOIN_WINDOW_MS);
    GroupsAreLive(book, a);
    GroupsAreLive(book, b);
    BookParts(book, now);
    if a.group == 0 && b.group == 0 {
      if |book.chains| < MAX_ACTIVE_GROUPS {
        NewGroupChanges(book, a, b, edge, now);
        assert {a.id} + {b.id} == {a.id, b.id};
      }
    } else if b.group == 0 {
      if |ChainAt(book, a.group).members| < MAX_GROUP_SIZE {
        ExtensionChanges(book, b, a, edge, now);
        assert {} + {b.id} == {b.id};
      }
    } else if a.group == 0 {
      if |ChainAt(book, b.group).members| < MAX_GROUP_SIZE {
        ExtensionChanges(book, a, b, edge, now);
        assert {a.id} + {} == {a.id};
      }
    }
  }

  lemma BookParts(book: Book, now: int)
    requires BookOk(book, now)
    ensures book.nextGroup >= 1 && AllChainsOk(book, now)
  {
  }

  lemma GroupsAreLive(book: Book, x: RingRecord)
    requires Placed(x, book)
    ensures x.group != 0 ==> x.group in book.chains
  {
  }

  lemma LinkKeepsBook(book: Book, a: RingRecord, b: RingRecord, now: int)
    requires BookOk(book, now) && Linkable(book, a, b, now)
    ensures BookOk(AssignOrExtend(book, a, b, EdgeOf(a, b), now).book, now)
  {
    hide AssignOrExtend, Changes, EdgeOf, Linkable, Gained, AllChainsOk, OneGroupEach;
    LinkChanges(book, a, b, now);
    var l := AssignOrExtend(book, a, b, EdgeOf(a, b), now);
    if l.group != 0 {
      ChangeKeepsBook(book, l.book, l.group, l.book.chains[l.group], Gained(book, a, b, now), now);
    } else {
      SameChains(book, l.book, now);
    }
  }

  lemma SameChains(book: Book, book': Book, now: int)
    requires BookOk(book, now) && book'.chains == book.chains && book'.nextGroup == book.nextGroup
    ensures BookOk(book', now)
  {
    hide ChainOk, HoldsId, DistinctIds;
  }

  lemma SamePlaces(book: Book, book': Book, x: RingRecord)
    requires Placed(x, book) && book'.chains == book.chains
    ensures Placed(x, book')
  {
  }

  /** Every record other than the two keeps its place. */
  lemma LinkKeepsOthers(book: Book, a: RingRecord, b: RingRecord, now: int, x: RingRecord)
    requires BookOk(book, now) && Linkable(book, a, b, now) && Placed(x, book) && x.id != a.id && x.id != b.id
    ensures Placed(x, AssignOrExtend(book, a, b, EdgeOf(a, b), now).book)
  {
    hide AssignOrExtend, Changes, EdgeOf, Linkable, AllChainsOk, OneGroupEach, Placed;
    LinkChanges(book, a, b, now);
    var l := AssignOrExtend(book, a, b, EdgeOf(a, b), now);
    if l.group != 0 {
      ChangeKeepsPlace(book, l.book, l.group, l.book.chains[l.group], Gained(book, a, b, now), now, x);
    } else {
      SamePlaces(book, l.book, x);
    }
  }

  /** The two linked records are in their places afterwards. */
  lemma LinkPlaces(book: Book, a: RingRecord, b: RingRecord, now: int)
    requires BookOk(book, now) && Linkable(book, a, b, now)
    ensures var l := AssignOrExtend(book, a, b, EdgeOf(a, b), now); Placed(l.a, l.book) && Placed(l.b, l.book)
  {
    hide Changes, EdgeOf, AllChainsOk, OneGroupEach, Placed, Linkable, AssignOrExtend;
    LinkChanges(book, a, b, now);
    var l := AssignOrExtend(book, a, b, EdgeOf(a, b), now);
    LinkablePlaced(book, a, b, now);
    if l.group == 0 {
      SamePlaces(book, l.book, a);
      SamePlaces(book, l.book, b);
    } else {
      LinkedPlace(book, a, b, now, a, l.a);
      LinkedPlace(book, a, b, now, b, l.b);
    }
  }

  lemma LinkablePlaced(book: Book, a: RingRecord, b: RingRecord, now: int)
    requires Linkable(book, a, b, now)
    ensures Placed(a, book) && Placed(b, book) && a.id != b.id
  {
    hide Placed;
  }

  lemma LinkedPlace(book: Book, a: RingRecord, b: RingRecord, now: int, x: RingRecord, x': RingRecord)
    requires BookOk(book, now) && Linkable(book, a, b, now)
    requires var l := AssignOrExtend(book, a, b, EdgeOf(a, b), now);
             l.group != 0 && ((x == a && x' == l.a) || (x == b && x' == l.b))
    ensures Placed(x', AssignOrExtend(book, a, b, EdgeOf(a, b), now).book)
  {
    hide Changes, EdgeOf, OneGroupEach, Placed, ChainOk;
    var l := AssignOrExtend(book, a, b, EdgeOf(a, b), now);
    LinkChanges(book, a, b, now);
    var c, gained := l.book.chains[l.group], Gained(book, a, b, now);
    if x.group == 0 {
      GainedSits(book, a, b, now);
      GainedTimes(a, b);
      GainedIsPlaced(book, l.book, l.group, c, gained, now, x');
    } else {
      ChangeKeepsPlace(book, l.book, l.group, c, gained, now, x);
    }
  }

  lemma GainedTimes(a: RingRecord, b: RingRecord)
    requires EdgeOf(a, b).matched
    ensures a.record.time != 0 && b.record.time != 0
  {
    MatchedEdge(a.record, b.record, JOIN_WINDOW_MS);
  }

  lemma GainedSits(book: Book, a: RingRecord, b: RingRecord, now: int)
    requires AssignOrExtend(book, a, b, EdgeOf(a, b), now).group != 0
    ensures var l := AssignOrExtend(book, a, b, EdgeOf(a, b), now);
            && l.group in l.book.chains
            && (a.group == 0 ==> SitsIn(l.a, l.book.chains[l.group]) && l.a.group == l.group)
            && (b.group == 0 ==> SitsIn(l.b, l.book.chains[l.group]) && l.b.group == l.group)
  {
    hide EdgeOf;
    var l := AssignOrExtend(book, a, b, EdgeOf(a, b), now);
    var m := l.book.chains[l.group].members;
    if a.group == 0 && b.group == 0 {
      assert m[0] == Anchor(a) && m[1] == Joined(b, EdgeOf(a, b));
    } else if b.group == 0 {
      assert m[|m| - 1] == Joined(b, EdgeOf(a, b));
    } else {
      assert m[|m| - 1] == Joined(a, EdgeOf(a, b));
    }
  }
}
