/** The row of two endpoints in the snapshot, in terms of the connections between them. */
module SnapshotRows {
  import opened Text
  import opened Separated
  import opened SnapshotSpec
  import opened SnapshotKeys
  import opened SnapshotTheorems

  // ---------------------------------------------------------------- the connections between two endpoints

  /** The connection joins a member of one endpoint and one of the other. */
  predicate Joins(g: GroupSnapshot, c: ConnectionSnapshot, a: string, b: string) {
    && c.from < |g.members| && c.to < |g.members|
    && {g.members[c.from].endpoint, g.members[c.to].endpoint} == {a, b}
  }

  /** Those among the first n connections of a group, in order. */
  function BetweenIn(g: GroupSnapshot, n: nat, a: string, b: string): seq<ConnectionSnapshot>
    requires n <= |g.connections|
  {
    if n == 0 then []
    else BetweenIn(g, n - 1, a, b) + if Joins(g, g.connections[n - 1], a, b) then [g.connections[n - 1]] else []
  }

  /** Those of all groups but the operational ones. */
  function Between(all: seq<GroupSnapshot>, a: string, b: string): seq<ConnectionSnapshot> {
    if all == [] then []
    else
      var g := all[|all| - 1];
      Between(all[..|all| - 1], a, b) + if g.operationalOnly then [] else BetweenIn(g, |g.connections|, a, b)
  }

  function LinksFor(cs: seq<ConnectionSnapshot>, a: string, b: string): (r: seq<Link>)
    ensures |r| == |cs|
    ensures forall i :: 0 <= i < |r| ==> r[i] == Link(a, b, cs[i].reason, cs[i].confidence, cs[i].score)
  {
    seq(|cs|, i requires 0 <= i < |cs| => Link(a, b, cs[i].reason, cs[i].confidence, cs[i].score))
  }

  predicate AllPlain(all: seq<GroupSnapshot>) { forall g <- all :: PlainNames(g) }

  /** Two names as a row lists them. */
  predicate IsPair(a: string, b: string) { a != "" && Less(a, b) && BarFree(a) && BarFree(b) }

  // ---------------------------------------------------------------- links and connections

  lemma LinkExactly(g: GroupSnapshot, c: ConnectionSnapshot, a: string, b: string)
    requires PlainNames(g) && IsPair(a, b)
    ensures LinkOf(g, c).Some? && KeyOf(LinkOf(g, c).value) == a + "|" + b <==> Joins(g, c, a, b)
    ensures Joins(g, c, a, b) ==> LinkOf(g, c) == Some(Link(a, b, c.reason, c.confidence, c.score))
  {
    hide Less, BarFree;
    LessIsStrict(a, b);
    assert b != "" by { NothingIsLess(a); }
    if c.from < |g.members| && c.to < |g.members| {
      var x, y := g.members[c.from], g.members[c.to];
      assert x in g.members && y in g.members;
      if LinkOf(g, c).Some? && KeyOf(LinkOf(g, c).value) == a + "|" + b {
        var l := LinkOf(g, c).value;
        SplitAtBar(l.a, l.b, a, b);
      }
      if Joins(g, c, a, b) { TwoNames(x.endpoint, y.endpoint, a, b); }
    }
  }

  lemma NothingIsLess(a: string)
    ensures !Less(a, "")
  {
  }

  lemma TwoNames(x: string, y: string, a: string, b: string)
    requires {x, y} == {a, b} && a != b
    ensures (x == a && y == b) || (x == b && y == a)
  {
    assert a in {x, y} && b in {x, y};
  }

  lemma {:induction false} ForKeyTwo(xs: seq<Link>, ys: seq<Link>, key: string)
    ensures ForKey(xs + ys, key) == ForKey(xs, key) + ForKey(ys, key)
  {
    if ys == [] {
      assert xs + ys == xs;
    } else {
      hide KeyOf, ForKey;
      var front, last := ys[..|ys| - 1], ys[|ys| - 1];
      assert ys == front + [last] && xs + ys == xs + front + [last];
      ForKeyTwo(xs, front, key);
      ForKeySnoc(front, last, key);
      ForKeySnoc(xs + front, last, key);
    }
  }

  lemma {:induction false} GroupLinks(g: GroupSnapshot, n: nat, a: string, b: string)
    requires n <= |g.connections| && PlainNames(g) && IsPair(a, b)
    ensures ForKey(LinksOf(g, n), a + "|" + b) == LinksFor(BetweenIn(g, n, a, b), a, b)
  {
    hide KeyOf, LinkOf, Joins, IsPair, PlainNames;
    if n > 0 {
      var c := g.connections[n - 1];
      GroupLinks(g, n - 1, a, b);
      LinkExactly(g, c, a, b);
      if LinkOf(g, c).Some? { ForKeySnoc(LinksOf(g, n - 1), LinkOf(g, c).value, a + "|" + b); }
    }
  }

  lemma BetweenSnoc(all: seq<GroupSnapshot>, g: GroupSnapshot, a: string, b: string)
    ensures Between(all + [g], a, b)
         == Between(all, a, b) + if g.operationalOnly then [] else BetweenIn(g, |g.connections|, a, b)
  {
    hide BetweenIn;
    assert (all + [g])[..|all|] == all;
  }

  lemma LinksForTwo(cs: seq<ConnectionSnapshot>, ds: seq<ConnectionSnapshot>, a: string, b: string)
    ensures LinksFor(cs + ds, a, b) == LinksFor(cs, a, b) + LinksFor(ds, a, b)
  {
  }

  lemma {:induction false} BehaviouralLinks(all: seq<GroupSnapshot>, a: string, b: string)
    requires AllPlain(all) && IsPair(a, b)
    ensures ForKey(AllLinks(Behavioural(all)), a + "|" + b) == LinksFor(Between(all, a, b), a, b)
  {
    hide LinksOf, BetweenIn, ForKey, PlainNames, IsPair, AllLinks, Behavioural, Between, LinksFor;
    if all == [] {
      NoneBetween(a, b);
    } else {
      var front, g := all[..|all| - 1], all[|all| - 1];
      assert g in all && all == front + [g];
      BehaviouralLinks(front, a, b);
      BehaviouralSnoc(front, g);
      BetweenSnoc(front, g, a, b);
      LinksForTwo(Between(front, a, b), BetweenIn(g, |g.connections|, a, b), a, b);
      if g.operationalOnly {
        assert Between(front, a, b) + [] == Between(front, a, b);
      } else {
        AllSnoc(Behavioural(front), g);
        ForKeyTwo(AllLinks(Behavioural(front)), LinksOf(g, |g.connections|), a + "|" + b);
        GroupLinks(g, |g.connections|, a, b);
      }
    }
  }

  lemma NoneBetween(a: string, b: string)
    ensures ForKey(AllLinks(Behavioural([])), a + "|" + b) == LinksFor(Between([], a, b), a, b)
  {
  }

  // ---------------------------------------------------------------- the row

  /** The row says how many connections join the endpoints, how many for each
      reason, the reason of the last one, and the confidence of the strongest. */
  predicate RowSays(e: EdgeAggregate, a: string, b: string, cs: seq<ConnectionSnapshot>) {
    && cs != [] && e.a == a && e.b == b && e.count == |cs| && e.lastReason == cs[|cs| - 1].reason
    && CountsReasons(e.reasons, Reasons(LinksFor(cs, a, b)))
    && Strongest(e.strongest, e.strongestScore, LinksFor(cs, a, b))
  }

  /** After any groups have been added, a pair of endpoints has a row exactly when
      some connection joins them, and the row says what those connections say. */
  lemma RowExactly(s: State, all: seq<GroupSnapshot>, a: string, b: string)
    requires Sound(s, all) && AllPlain(all) && IsPair(a, b)
    ensures a + "|" + b in s.edges <==> Between(all, a, b) != []
    ensures a + "|" + b in s.edges ==> RowSays(s.edges[a + "|" + b], a, b, Between(all, a, b))
  {
    hide CombosSound, KnownIn, EventsIn, LastHeld, AllLinks, ForKey, Strongest, CountsReasons, Between, IsPair;
    var links, key := AllLinks(Behavioural(all)), a + "|" + b;
    BehaviouralLinks(all, a, b);
    ForKeyMissing(links, key);
    if key in s.edges {
      assert Aggregates(s.edges[key], ForKey(links, key));
    }
  }
}
