/** The incremental aggregates equal a recomputation from all groups ever added. */
module SnapshotTheorems {
  import opened SnapshotSpec
  import EvidenceGraph
  import UnifiedSpec
  import UnifiedHistory
  import UnifiedInvariant
  import UnifiedRuns

  // ---------------------------------------------------------------- recomputation

  function Behavioural(all: seq<GroupSnapshot>): seq<GroupSnapshot> {
    if all == [] then []
    else
      var front, last := Behavioural(all[..|all| - 1]), all[|all| - 1];
      if last.operationalOnly then front else front + [last]
  }

  function EventsIn(gs: seq<GroupSnapshot>): nat {
    if gs == [] then 0 else EventsIn(gs[..|gs| - 1]) + gs[|gs| - 1].recordsObserved
  }

  /** The countable links of the first `n` connections. */
  function LinksOf(g: GroupSnapshot, n: nat): seq<Link>
    requires n <= |g.connections|
  {
    if n == 0 then []
    else
      match LinkOf(g, g.connections[n - 1])
      case None => LinksOf(g, n - 1)
      case Some(l) => LinksOf(g, n - 1) + [l]
  }

  function AllLinks(gs: seq<GroupSnapshot>): seq<Link> {
    if gs == [] then []
    else AllLinks(gs[..|gs| - 1]) + LinksOf(gs[|gs| - 1], |gs[|gs| - 1].connections|)
  }

  function ForKey(links: seq<Link>, key: string): seq<Link> {
    if links == [] then []
    else
      var front, last := ForKey(links[..|links| - 1], key), links[|links| - 1];
      if KeyOf(last) == key then front + [last] else front
  }

  function Reasons(links: seq<Link>): (r: seq<string>)
    ensures |r| == |links| && forall i :: 0 <= i < |r| ==> r[i] == links[i].reason
  {
    seq(|links|, i requires 0 <= i < |links| => links[i].reason)
  }

  function Keys(links: seq<Link>): (r: seq<string>)
    ensures |r| == |links| && forall i :: 0 <= i < |r| ==> r[i] == KeyOf(links[i])
  {
    seq(|links|, i requires 0 <= i < |links| => KeyOf(links[i]))
  }

  function CountOf(xs: seq<string>, x: string): nat {
    if xs == [] then 0 else CountOf(xs[..|xs| - 1], x) + if xs[|xs| - 1] == x then 1 else 0
  }

  /** The number of links of each reason. */
  predicate CountsReasons(counts: map<string, nat>, reasons: seq<string>) {
    && (forall r <- reasons :: r in counts)
    && forall r <- counts :: r in reasons && counts[r] == CountOf(reasons, r)
  }

  /** The strongest score is the largest one, or 0 if all are negative, and comes from the last link that reached it. */
  predicate Strongest(confidence: string, score: real, links: seq<Link>) {
    && score >= 0.0 && (forall l <- links :: l.score <= score)
    && (score == 0.0 || exists l <- links :: l.score == score && l.confidence == confidence)
    && forall i ::
         0 <= i < |links| && links[i].score == score && (forall j :: i < j < |links| ==> links[j].score < score)
         ==> links[i].confidence == confidence
  }

  /** What an edge aggregate says of the links with its key. */
  predicate Aggregates(e: EdgeAggregate, links: seq<Link>) {
    && links != [] && e.a == links[|links| - 1].a && e.b == links[|links| - 1].b
    && e.count == |links| && CountsReasons(e.reasons, Reasons(links))
    && e.lastReason == links[|links| - 1].reason && Strongest(e.strongest, e.strongestScore, links)
  }

  predicate EdgesSound(edges: map<string, EdgeAggregate>, links: seq<Link>) {
    && (forall l <- links :: KeyOf(l) in edges)
    && forall k <- edges :: Aggregates(edges[k], ForKey(links, k))
  }

  function WithKey(gs: seq<GroupSnapshot>, key: string): seq<GroupSnapshot> {
    if gs == [] then []
    else
      var front, last := WithKey(gs[..|gs| - 1], key), gs[|gs| - 1];
      if Endpoints(last) != [] && ComboKey(last) == key then front + [last] else front
  }

  function CorrIds(gs: seq<GroupSnapshot>): (r: seq<string>)
    ensures |r| == |gs| && forall i :: 0 <= i < |r| ==> r[i] == CorrId(gs[i].id)
  {
    seq(|gs|, i requires 0 <= i < |gs| => CorrId(gs[i].id))
  }

  function FirstFive(ids: seq<string>): seq<string> { if |ids| <= 5 then ids else ids[..5] }

  predicate CombinationSound(c: Combination, gs: seq<GroupSnapshot>) {
    gs != [] && c.endpoints == Endpoints(gs[0]) && c.incidents == |gs| && c.examples == FirstFive(CorrIds(gs))
  }

  predicate CombosSound(combos: map<string, Combination>, gs: seq<GroupSnapshot>) {
    && (forall g <- gs :: Endpoints(g) != [] ==> ComboKey(g) in combos)
    && forall k <- combos :: CombinationSound(combos[k], WithKey(gs, k))
  }

  function KnownIn(gs: seq<GroupSnapshot>): set<string> { set g <- gs, name <- NamesIn(g) :: name }

  /** The whole state is what a recomputation from all groups gives. */
  predicate Sound(s: State, all: seq<GroupSnapshot>) {
    var gs := Behavioural(all);
    && s.held == LastHeld(gs) && s.totalGroups == |gs| && s.totalEvents == EventsIn(gs)
    && s.operationalExcluded + |gs| == |all| && s.known == KnownIn(gs)
    && EdgesSound(s.edges, AllLinks(gs)) && CombosSound(s.combos, gs)
  }

  // ---------------------------------------------------------------- one link

  lemma CountOfSnoc(xs: seq<string>, y: string, x: string)
    ensures CountOf(xs + [y], x) == CountOf(xs, x) + if y == x then 1 else 0
  {
    assert (xs + [y])[..|xs|] == xs;
  }

  lemma {:induction false} CountOfMissing(xs: seq<string>, x: string)
    ensures CountOf(xs, x) > 0 <==> x in xs
  {
    if xs != [] {
      CountOfMissing(xs[..|xs| - 1], x);
      assert xs == xs[..|xs| - 1] + [xs[|xs| - 1]];
    }
  }

  lemma ReasonsSnoc(links: seq<Link>, l: Link)
    ensures Reasons(links + [l]) == Reasons(links) + [l.reason]
  {
  }

  lemma CountsReasonsKeeps(counts: map<string, nat>, reasons: seq<string>, reason: string)
    requires CountsReasons(counts, reasons)
    ensures CountsReasons(CountOne(counts, reason), reasons + [reason])
  {
    hide CountOf;
    CountOfMissing(reasons, reason);
    forall r <- CountOne(counts, reason) ensures CountOne(counts, reason)[r] == CountOf(reasons + [reason], r) {
      CountOfSnoc(reasons, reason, r);
    }
  }

  lemma StrongestKeeps(confidence: string, score: real, links: seq<Link>, l: Link)
    requires Strongest(confidence, score, links)
    ensures if l.score >= score then Strongest(l.confidence, l.score, links + [l])
            else Strongest(confidence, score, links + [l])
  {
    var more := links + [l];
    assert more[|links|] == l && forall i :: 0 <= i < |links| ==> more[i] == links[i];
    forall x <- more ensures x in links || x == l {}
    if l.score < score {
      forall i | 0 <= i < |more| && more[i].score == score && (forall j :: i < j < |more| ==> more[j].score < score)
        ensures more[i].confidence == confidence
      {
        assert forall j :: i < j < |links| ==> more[j] == links[j];
      }
    }
  }

  lemma {:induction false} ForKeySnoc(links: seq<Link>, l: Link, key: string)
    ensures ForKey(links + [l], key) == if KeyOf(l) == key then ForKey(links, key) + [l] else ForKey(links, key)
  {
    assert (links + [l])[..|links|] == links;
  }

  lemma {:induction false} ForKeyMissing(links: seq<Link>, key: string)
    ensures ForKey(links, key) == [] <==> forall l <- links :: KeyOf(l) != key
  {
    hide KeyOf;
    if links != [] {
      ForKeyMissing(links[..|links| - 1], key);
      assert links == links[..|links| - 1] + [links[|links| - 1]];
    }
  }

  lemma CountedAggregates(e: EdgeAggregate, links: seq<Link>, l: Link)
    requires Aggregates(e, links) || (links == [] && e == NO_AGGREGATE)
    ensures Aggregates(Counted(e, l), links + [l])
  {
    hide CountsReasons, Strongest, CountOne;
    if links == [] {
      assert CountsReasons(map[], []) && Strongest("", 0.0, []) by { NothingCounted(); }
      assert Reasons([]) == [];
    }
    ReasonsSnoc(links, l);
    CountsReasonsKeeps(e.reasons, Reasons(links), l.reason);
    StrongestKeeps(e.strongest, e.strongestScore, links, l);
  }

  lemma NothingCounted()
    ensures CountsReasons(map[], []) && Strongest("", 0.0, [])
  {
  }

  lemma AddLinkKeeps(edges: map<string, EdgeAggregate>, links: seq<Link>, l: Link)
    requires EdgesSound(edges, links)
    ensures EdgesSound(AddLink(edges, l), links + [l])
  {
    hide Aggregates, Counted, KeyOf, ForKey;
    var key, edges' := KeyOf(l), AddLink(edges, l);
    ForKeyMissing(links, key);
    CountedAggregates(if key in edges then edges[key] else NO_AGGREGATE, ForKey(links, key), l);
    forall k <- edges' ensures Aggregates(edges'[k], ForKey(links + [l], k)) {
      ForKeySnoc(links, l, k);
    }
  }

  lemma {:induction false} EdgesKeep(edges: map<string, EdgeAggregate>, links: seq<Link>, g: GroupSnapshot, n: nat)
    requires EdgesSound(edges, links) && n <= |g.connections|
    ensures EdgesSound(Edges(edges, g, n), links + LinksOf(g, n))
  {
    hide EdgesSound, AddLink, LinkOf;
    if n == 0 {
      assert links + [] == links;
    } else {
      EdgesKeep(edges, links, g, n - 1);
      if LinkOf(g, g.connections[n - 1]).Some? {
        var l := LinkOf(g, g.connections[n - 1]).value;
        AddLinkKeeps(Edges(edges, g, n - 1), links + LinksOf(g, n - 1), l);
        assert links + LinksOf(g, n - 1) + [l] == links + (LinksOf(g, n - 1) + [l]);
      }
    }
  }

  // ---------------------------------------------------------------- one combination

  lemma WithKeySnoc(gs: seq<GroupSnapshot>, g: GroupSnapshot, key: string)
    ensures WithKey(gs + [g], key)
         == if Endpoints(g) != [] && ComboKey(g) == key then WithKey(gs, key) + [g] else WithKey(gs, key)
  {
    hide Endpoints, ComboKey;
    assert (gs + [g])[..|gs|] == gs;
  }

  lemma {:induction false} WithKeyMissing(gs: seq<GroupSnapshot>, key: string)
    ensures WithKey(gs, key) == [] <==> forall g <- gs :: Endpoints(g) == [] || ComboKey(g) != key
  {
    hide Endpoints, ComboKey;
    if gs != [] {
      WithKeyMissing(gs[..|gs| - 1], key);
      assert gs == gs[..|gs| - 1] + [gs[|gs| - 1]];
    }
  }

  lemma {:induction false} WithKeyHas(gs: seq<GroupSnapshot>, key: string)
    ensures forall g <- WithKey(gs, key) :: g in gs && Endpoints(g) != [] && ComboKey(g) == key
  {
    hide Endpoints, ComboKey;
    if gs != [] { WithKeyHas(gs[..|gs| - 1], key); }
  }

  lemma CombinedKeeps(c: Combination, gs: seq<GroupSnapshot>, g: GroupSnapshot)
    requires CombinationSound(c, gs) || (gs == [] && c == Combination([], 0, []))
    requires Endpoints(g) != [] && forall x <- gs :: Endpoints(x) != []
    ensures CombinationSound(Combined(c, g), gs + [g])
  {
    hide Endpoints, CorrId;
    assert CorrIds(gs + [g]) == CorrIds(gs) + [CorrId(g.id)];
    if gs == [] { assert CorrIds(gs) == [] && [] + [g] == [g]; }
    else { assert gs[0] in gs && (gs + [g])[0] == gs[0]; }
  }

  lemma CombosKeep(combos: map<string, Combination>, gs: seq<GroupSnapshot>, g: GroupSnapshot)
    requires CombosSound(combos, gs)
    ensures CombosSound(AddCombination(combos, g), gs + [g])
  {
    hide CombinationSound, Combined, Endpoints, ComboKey, WithKey;
    var key, combos' := ComboKey(g), AddCombination(combos, g);
    if Endpoints(g) != [] {
      WithKeyMissing(gs, key);
      WithKeyHas(gs, key);
      CombinedKeeps(if key in combos then combos[key] else Combination([], 0, []), WithKey(gs, key), g);
    }
    forall k <- combos' ensures CombinationSound(combos'[k], WithKey(gs + [g], k)) {
      WithKeySnoc(gs, g, k);
    }
  }

  // ---------------------------------------------------------------- whole calls

  /** Everything but the bound on the held groups. */
  predicate SoundButHeld(s: State, all: seq<GroupSnapshot>, held: seq<GroupSnapshot>) {
    Sound(s.(held := LastHeld(Behavioural(all))), all) && s.held == held
  }

  lemma BehaviouralSnoc(all: seq<GroupSnapshot>, g: GroupSnapshot)
    ensures Behavioural(all + [g]) == if g.operationalOnly then Behavioural(all) else Behavioural(all) + [g]
  {
    assert (all + [g])[..|all|] == all;
  }

  lemma AllSnoc(gs: seq<GroupSnapshot>, g: GroupSnapshot)
    ensures AllLinks(gs + [g]) == AllLinks(gs) + LinksOf(g, |g.connections|)
    ensures EventsIn(gs + [g]) == EventsIn(gs) + g.recordsObserved
    ensures KnownIn(gs + [g]) == KnownIn(gs) + NamesIn(g)
  {
    hide LinksOf, NamesIn;
    assert (gs + [g])[..|gs|] == gs;
    assert forall x <- gs + [g] :: x in gs || x == g;
    assert g in gs + [g] && forall x <- gs :: x in gs + [g];
  }

  lemma AddOneKeeps(s: State, all: seq<GroupSnapshot>, held: seq<GroupSnapshot>, g: GroupSnapshot)
    requires SoundButHeld(s, all, held)
    ensures SoundButHeld(AddOne(s, g), all + [g], if g.operationalOnly then held else held + [g])
  {
    hide EdgesSound, CombosSound, Edges, AddCombination, AllLinks, EventsIn, KnownIn, Behavioural, NamesIn, LinksOf;
    var gs := Behavioural(all);
    BehaviouralSnoc(all, g);
    if !g.operationalOnly {
      AllSnoc(gs, g);
      EdgesKeep(s.edges, AllLinks(gs), g, |g.connections|);
      CombosKeep(s.combos, gs, g);
    }
  }

  lemma {:induction false} AddEachKeeps(s: State, all: seq<GroupSnapshot>, gs: seq<GroupSnapshot>)
    requires SoundButHeld(s, all, s.held)
    ensures SoundButHeld(AddEach(s, gs), all + gs, s.held + Behavioural(gs))
  {
    hide SoundButHeld, AddOne;
    if gs == [] {
      assert all + gs == all && s.held + [] == s.held;
    } else {
      var front, last := gs[..|gs| - 1], gs[|gs| - 1];
      AddEachKeeps(s, all, front);
      AddOneKeeps(AddEach(s, front), all + front, s.held + Behavioural(front), last);
      assert all + front + [last] == all + gs;
      assert s.held + Behavioural(front) + [last] == s.held + (Behavioural(front) + [last]);
    }
  }

  lemma {:induction false} BehaviouralAppend(all: seq<GroupSnapshot>, gs: seq<GroupSnapshot>)
    ensures Behavioural(all + gs) == Behavioural(all) + Behavioural(gs)
  {
    if gs == [] {
      assert all + gs == all;
    } else {
      hide Behavioural;
      var front, last := gs[..|gs| - 1], gs[|gs| - 1];
      assert gs == front + [last];
      BehaviouralAppend(all, front);
      BehaviouralSnoc(front, last);
      BehaviouralSnoc(all + front, last);
      assert all + front + [last] == all + gs;
    }
  }

  /** Held are the newest 2000, or all of fewer. */
  lemma HeldInNumbers(gs: seq<GroupSnapshot>)
    ensures |LastHeld(gs)| == (if |gs| <= 2000 then |gs| else 2000) && LastHeld(gs) == gs[|gs| - |LastHeld(gs)|..]
  {
    assert gs[0..] == gs;
  }

  /** Keeping the last 2000 call by call keeps the last 2000 of all. */
  lemma HeldAreLast(before: seq<GroupSnapshot>, more: seq<GroupSnapshot>)
    ensures LastHeld(LastHeld(before) + more) == LastHeld(before + more)
  {
    if |before| > MAX_HELD {
      var cut := before[|before| - MAX_HELD..];
      assert (before + more)[|before| + |more| - MAX_HELD..] == (cut + more)[|more|..];
    }
  }

  /** Every call keeps the state equal to the recomputation from all groups. */
  lemma AddGroupsKeeps(s: State, all: seq<GroupSnapshot>, gs: seq<GroupSnapshot>)
    requires Sound(s, all)
    ensures Sound(AddGroups(s, gs), all + gs)
  {
    hide EdgesSound, CombosSound, AllLinks, EventsIn, KnownIn, Behavioural, AddEach, LastHeld;
    assert s.(held := s.held) == s;
    AddEachKeeps(s, all, gs);
    BehaviouralAppend(all, gs);
    HeldAreLast(Behavioural(all), Behavioural(gs));
  }

  lemma EmptyIsSound()
    ensures Sound(EMPTY, [])
  {
  }

  // ---------------------------------------------------------------- totals

  /** Sum of the counts of all listed keys. */
  function CountsOver(order: seq<string>, xs: seq<string>): nat {
    if order == [] then 0 else CountsOver(order[..|order| - 1], xs) + CountOf(xs, order[|order| - 1])
  }

  predicate Distinct(order: seq<string>) {
    forall i, j :: 0 <= i < j < |order| ==> order[i] != order[j]
  }

  lemma {:induction false} CountsOverSnoc(order: seq<string>, xs: seq<string>, y: string)
    ensures CountsOver(order, xs + [y]) == CountsOver(order, xs) + CountOf(order, y)
  {
    hide CountOf;
    if order == [] {
      assert CountOf([], y) == 0 by { CountOfNothing(y); }
    } else {
      CountsOverSnoc(order[..|order| - 1], xs, y);
      CountOfSnoc(xs, y, order[|order| - 1]);
      CountOfSnoc(order[..|order| - 1], order[|order| - 1], y);
      assert order == order[..|order| - 1] + [order[|order| - 1]];
    }
  }

  lemma CountOfNothing(x: string)
    ensures CountOf([], x) == 0
  {
  }

  lemma {:induction false} DistinctCount(order: seq<string>, y: string)
    requires Distinct(order)
    ensures CountOf(order, y) == if y in order then 1 else 0
  {
    if order != [] {
      var front, last := order[..|order| - 1], order[|order| - 1];
      DistinctCount(front, y);
      assert order == front + [last];
    }
  }

  lemma {:induction false} EveryoneCountedOnce(order: seq<string>, xs: seq<string>)
    requires Distinct(order) && forall x <- xs :: x in order
    ensures CountsOver(order, xs) == |xs|
  {
    hide CountOf;
    if xs == [] {
      NobodyCounted(order);
    } else {
      var front, last := xs[..|xs| - 1], xs[|xs| - 1];
      assert xs == front + [last];
      EveryoneCountedOnce(order, front);
      CountsOverSnoc(order, front, last);
      DistinctCount(order, last);
    }
  }

  lemma {:induction false} NobodyCounted(order: seq<string>)
    ensures CountsOver(order, []) == 0
  {
    if order != [] { NobodyCounted(order[..|order| - 1]); }
  }

  function EdgeCounts(order: seq<string>, edges: map<string, EdgeAggregate>): nat
    requires forall k <- order :: k in edges
  {
    if order == [] then 0 else EdgeCounts(order[..|order| - 1], edges) + edges[order[|order| - 1]].count
  }

  lemma {:induction false} ForKeyCount(links: seq<Link>, key: string)
    ensures |ForKey(links, key)| == CountOf(Keys(links), key)
  {
    hide KeyOf;
    if links != [] {
      var front, last := links[..|links| - 1], links[|links| - 1];
      ForKeyCount(front, key);
      assert Keys(links) == Keys(front) + [KeyOf(last)];
      CountOfSnoc(Keys(front), KeyOf(last), key);
    }
  }

  lemma {:induction false} EdgeCountsAre(order: seq<string>, edges: map<string, EdgeAggregate>, links: seq<Link>)
    requires (forall k <- order :: k in edges) && EdgesSound(edges, links)
    ensures EdgeCounts(order, edges) == CountsOver(order, Keys(links))
  {
    hide CountOf, CountsReasons, Strongest, ForKey, Keys;
    if order != [] {
      var last := order[|order| - 1];
      EdgeCountsAre(order[..|order| - 1], edges, links);
      assert Aggregates(edges[last], ForKey(links, last));
      ForKeyCount(links, last);
    }
  }

  /** All edge counts together are the number of links ever added. */
  lemma EdgeCountsAddUp(s: State, all: seq<GroupSnapshot>, order: seq<string>)
    requires Sound(s, all) && Distinct(order) && forall k :: k in order <==> k in s.edges
    ensures EdgeCounts(order, s.edges) == |AllLinks(Behavioural(all))|
  {
    hide CountOf, CombosSound, EventsIn, KnownIn, Aggregates, AllLinks, Behavioural, KeyOf;
    var links := AllLinks(Behavioural(all));
    EdgeCountsAre(order, s.edges, links);
    forall x <- Keys(links) ensures x in order {
      var i :| 0 <= i < |links| && x == KeyOf(links[i]);
      assert links[i] in links;
    }
    EveryoneCountedOnce(order, Keys(links));
  }

  function ReasonTotals(order: seq<string>, counts: map<string, nat>): nat
    requires forall r <- order :: r in counts
  {
    if order == [] then 0 else ReasonTotals(order[..|order| - 1], counts) + counts[order[|order| - 1]]
  }

  lemma {:induction false} ReasonTotalsAre(order: seq<string>, counts: map<string, nat>, reasons: seq<string>)
    requires (forall r <- order :: r in counts) && CountsReasons(counts, reasons)
    ensures ReasonTotals(order, counts) == CountsOver(order, reasons)
  {
    hide CountOf;
    if order != [] { ReasonTotalsAre(order[..|order| - 1], counts, reasons); }
  }

  /** Each edge's count is the sum of its reason counts. */
  lemma ReasonsAddUp(s: State, all: seq<GroupSnapshot>, key: string, order: seq<string>)
    requires Sound(s, all) && key in s.edges && Distinct(order) && forall r :: r in order <==> r in s.edges[key].reasons
    ensures ReasonTotals(order, s.edges[key].reasons) == s.edges[key].count
  {
    hide CountOf, CombosSound, EventsIn, KnownIn, Strongest, AllLinks, Behavioural, ForKey;
    var links := ForKey(AllLinks(Behavioural(all)), key);
    assert Aggregates(s.edges[key], links);
    ReasonTotalsAre(order, s.edges[key].reasons, Reasons(links));
    EveryoneCountedOnce(order, Reasons(links));
  }

  function Incidents(order: seq<string>, combos: map<string, Combination>): nat
    requires forall k <- order :: k in combos
  {
    if order == [] then 0 else Incidents(order[..|order| - 1], combos) + combos[order[|order| - 1]].incidents
  }

  /** The combination keys of the groups that have an endpoint. */
  function ComboKeys(gs: seq<GroupSnapshot>): seq<string> {
    if gs == [] then []
    else ComboKeys(gs[..|gs| - 1]) + if Endpoints(gs[|gs| - 1]) != [] then [ComboKey(gs[|gs| - 1])] else []
  }

  lemma {:induction false} WithKeyCount(gs: seq<GroupSnapshot>, key: string)
    ensures |WithKey(gs, key)| == CountOf(ComboKeys(gs), key)
  {
    hide Endpoints, ComboKey;
    if gs != [] {
      var front, last := gs[..|gs| - 1], gs[|gs| - 1];
      WithKeyCount(front, key);
      if Endpoints(last) != [] { CountOfSnoc(ComboKeys(front), ComboKey(last), key); }
      else { assert ComboKeys(front) + [] == ComboKeys(front); }
    }
  }

  lemma {:induction false} IncidentsAre(order: seq<string>, combos: map<string, Combination>, gs: seq<GroupSnapshot>)
    requires (forall k <- order :: k in combos) && CombosSound(combos, gs)
    ensures Incidents(order, combos) == CountsOver(order, ComboKeys(gs))
  {
    hide CountOf, Endpoints, ComboKey, ComboKeys, WithKey;
    if order != [] {
      var last := order[|order| - 1];
      IncidentsAre(order[..|order| - 1], combos, gs);
      assert CombinationSound(combos[last], WithKey(gs, last));
      WithKeyCount(gs, last);
    }
  }

  lemma {:induction false} ComboKeysOfNamed(gs: seq<GroupSnapshot>)
    requires forall g <- gs :: Endpoints(g) != []
    ensures |ComboKeys(gs)| == |gs| && forall k <- ComboKeys(gs) :: exists g <- gs :: k == ComboKey(g)
  {
    hide Endpoints, ComboKey;
    if gs != [] {
      var front, last := gs[..|gs| - 1], gs[|gs| - 1];
      ComboKeysOfNamed(front);
      assert forall g <- front :: g in gs;
      assert last in gs;
    }
  }

  /** All combination counts together are the number of behavioural groups. */
  lemma IncidentsAddUp(s: State, all: seq<GroupSnapshot>, order: seq<string>)
    requires Sound(s, all) && Distinct(order) && forall k :: k in order <==> k in s.combos
    requires forall g <- Behavioural(all) :: Endpoints(g) != []
    ensures Incidents(order, s.combos) == s.totalGroups
  {
    hide CountOf, EdgesSound, EventsIn, KnownIn, AllLinks, Behavioural, Endpoints, ComboKey, ComboKeys,
         CombinationSound;
    var gs := Behavioural(all);
    IncidentsAre(order, s.combos, gs);
    ComboKeysOfNamed(gs);
    EveryoneCountedOnce(order, ComboKeys(gs));
  }

  // ---------------------------------------------------------------- groups of the engine

  /** Every connection joins two named, different endpoints. */
  predicate Joins(g: GroupSnapshot) {
    forall c <- g.connections ::
      c.from < |g.members| && c.to < |g.members| && g.members[c.from].endpoint != g.members[c.to].endpoint
      && g.members[c.from].endpoint != "" && g.members[c.to].endpoint != ""
  }

  lemma {:induction false} EveryConnectionCounts(g: GroupSnapshot, n: nat)
    requires Joins(g) && n <= |g.connections|
    ensures |LinksOf(g, n)| == n
  {
    if n > 0 {
      EveryConnectionCounts(g, n - 1);
      assert g.connections[n - 1] in g.connections;
    }
  }

  function MembersLessOne(gs: seq<GroupSnapshot>): int {
    if gs == [] then 0 else MembersLessOne(gs[..|gs| - 1]) + |gs[|gs| - 1].members| - 1
  }

  lemma {:induction false} LinksOfTrees(gs: seq<GroupSnapshot>)
    requires forall g <- gs :: Joins(g) && |g.connections| == |g.members| - 1
    ensures |AllLinks(gs)| == MembersLessOne(gs)
  {
    hide Joins, LinksOf;
    if gs != [] {
      var last := gs[|gs| - 1];
      LinksOfTrees(gs[..|gs| - 1]);
      assert last in gs;
      EveryConnectionCounts(last, |last.connections|);
    }
  }

  /** A group of the unified engine, whatever its history, arrives as such a tree
      when its members' endpoints are named. */
  lemma EngineGroupsAreTrees(es: UnifiedSpec.State, h: UnifiedHistory.History, g: UnifiedSpec.Group)
    requires UnifiedInvariant.Inv(es, h) && UnifiedRuns.Known(es, h, g)
    requires forall i :: 0 <= i < |g.members| ==> g.members[i].first.endpoint != ""
    ensures Joins(ToSnapshot(g)) && |ToSnapshot(g).connections| == |ToSnapshot(g).members| - 1
    ensures ToSnapshot(g).connected <==> |ToSnapshot(g).members| > 1
  {
    hide UnifiedInvariant.Inv, UnifiedRuns.Known, EvidenceGraph.Connected, EvidenceGraph.Forward;
    UnifiedRuns.EveryGroupIsATree(es, h, g);
    var t := ToSnapshot(g);
    forall c <- t.connections
      ensures c.from < |t.members| && c.to < |t.members| && t.members[c.from].endpoint != t.members[c.to].endpoint
              && t.members[c.from].endpoint != "" && t.members[c.to].endpoint != ""
    {
      var i :| 0 <= i < |t.connections| && t.connections[i] == c;
      assert g.connections[i] in g.connections;
    }
  }

  /** For trees, the edge counts sum to the members less one of all behavioural groups. */
  lemma EdgeCountsAreTreeEdges(s: State, all: seq<GroupSnapshot>, order: seq<string>)
    requires Sound(s, all) && Distinct(order) && forall k :: k in order <==> k in s.edges
    requires forall g <- Behavioural(all) :: Joins(g) && |g.connections| == |g.members| - 1
    ensures EdgeCounts(order, s.edges) == MembersLessOne(Behavioural(all))
  {
    hide Sound, Behavioural, Joins, AllLinks, EdgeCounts;
    EdgeCountsAddUp(s, all, order);
    LinksOfTrees(Behavioural(all));
  }
}
