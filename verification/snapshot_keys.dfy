/** The keys of the aggregates: what they stand for does not depend on the order of members, and names without a bar
    cannot run into each other. */
module SnapshotKeys {
  import opened Text
  import opened Separated
  import opened SnapshotSpec

  // ---------------------------------------------------------------- the order of names

  lemma {:induction false} LessTrans(s: string, t: string, u: string)
    requires Less(s, t) && Less(t, u)
    ensures Less(s, u)
  {
    if s != "" && s[0] == t[0] && t[0] == u[0] { LessTrans(s[1..], t[1..], u[1..]); }
  }

  lemma {:induction false} LessIsTotal(s: string, t: string)
    ensures s == t || Less(s, t) || Less(t, s)
  {
    if s != "" && t != "" && s[0] == t[0] {
      LessIsTotal(s[1..], t[1..]);
      assert s == [s[0]] + s[1..] && t == [t[0]] + t[1..];
    }
  }

  lemma {:induction false} LessIsStrict(s: string, t: string)
    requires Less(s, t)
    ensures s != t && !Less(t, s)
  {
    if s != "" && s[0] == t[0] { LessIsStrict(s[1..], t[1..]); }
  }

  /** The names agree up to position i, where the first one ends or has the smaller byte. */
  predicate SmallerAt(s: string, t: string, i: nat) {
    i <= |s| && i < |t| && s[..i] == t[..i] && (i == |s| || s[i] < t[i])
  }

  /** The order is that of the bytes at the first difference. */
  lemma {:induction false} LessExactly(s: string, t: string)
    ensures Less(s, t) <==> exists i: nat :: SmallerAt(s, t, i)
  {
    if t == "" {
    } else if s == "" || s[0] < t[0] {
      assert SmallerAt(s, t, 0);
    } else if s[0] == t[0] {
      LessExactly(s[1..], t[1..]);
      if i: nat :| SmallerAt(s[1..], t[1..], i) {
        assert s[..i + 1] == [s[0]] + s[1..][..i] && t[..i + 1] == [t[0]] + t[1..][..i];
        assert SmallerAt(s, t, i + 1);
      }
      if i: nat :| SmallerAt(s, t, i) {
        assert i > 0;
        assert s[1..][..i - 1] == s[..i][1..] && t[1..][..i - 1] == t[..i][1..];
        assert SmallerAt(s[1..], t[1..], i - 1);
      }
    } else {
      forall i: nat ensures !SmallerAt(s, t, i) {
        if i > 0 && i <= |s| && i < |t| { assert s[..i][0] == s[0] && t[..i][0] == t[0]; }
      }
    }
  }

  predicate Sorted(names: seq<string>) {
    forall i, j :: 0 <= i < j < |names| ==> Less(names[i], names[j])
  }

  // ---------------------------------------------------------------- a combination is a set

  lemma {:induction false} InsertedIs(names: seq<string>, x: string)
    requires Sorted(names)
    ensures Sorted(Inserted(names, x))
    ensures forall y :: y in Inserted(names, x) <==> y == x || y in names
  {
    hide Less;
    if names != [] && names[0] != x {
      LessIsTotal(names[0], x);
      if Less(x, names[0]) {
        InsertedFirst(names, x);
      } else {
        InsertedIs(names[1..], x);
        InsertedLater(names, x, Inserted(names[1..], x));
      }
    }
  }

  lemma InsertedFirst(names: seq<string>, x: string)
    requires Sorted(names) && names != [] && Less(x, names[0])
    ensures Sorted([x] + names)
  {
    hide Less;
    var more := [x] + names;
    forall i, j | 0 <= i < j < |more| ensures Less(more[i], more[j]) {
      if i == 0 && j > 1 { LessTrans(x, names[0], names[j - 1]); }
    }
  }

  lemma InsertedLater(names: seq<string>, x: string, rest: seq<string>)
    requires names != [] && Sorted(names) && Sorted(rest) && Less(names[0], x)
    requires forall y :: y in rest <==> y == x || y in names[1..]
    ensures Sorted([names[0]] + rest)
    ensures forall y :: y in [names[0]] + rest <==> y == x || y in names
  {
    hide Less;
    var more := [names[0]] + rest;
    forall j | 1 <= j < |more| ensures Less(names[0], more[j]) {
      assert more[j] in rest;
      if more[j] != x {
        var k :| 0 <= k < |names[1..]| && names[1..][k] == more[j];
        assert names[k + 1] == more[j];
      }
    }
    assert names == [names[0]] + names[1..];
  }

  lemma {:induction false} EndpointsUpTo(members: seq<MemberSnapshot>, n: nat)
    requires n <= |members|
    ensures Sorted(EndpointsOf(members, n))
    ensures forall y :: y in EndpointsOf(members, n) <==> exists i :: 0 <= i < n && members[i].endpoint == y && y != ""
  {
    hide Sorted, Inserted;
    if n == 0 {
      assert Sorted([]) by { NothingSorted(); }
    } else {
      EndpointsUpTo(members, n - 1);
      InsertedIs(EndpointsOf(members, n - 1), members[n - 1].endpoint);
    }
  }

  lemma NothingSorted()
    ensures Sorted([])
  {
  }

  /** The endpoints of a group are its named endpoints, in order, each once. */
  lemma EndpointsAre(g: GroupSnapshot)
    ensures Sorted(Endpoints(g)) && forall y :: y in Endpoints(g) <==> y in NamesIn(g)
  {
    hide Sorted, EndpointsOf;
    EndpointsUpTo(g.members, |g.members|);
    forall y ensures y in Endpoints(g) <==> y in NamesIn(g) {
      if y in NamesIn(g) {
        var m :| m in g.members && m.endpoint != "" && m.endpoint == y;
        var i :| 0 <= i < |g.members| && g.members[i] == m;
      }
    }
  }

  lemma {:induction false} SortedIsUnique(p: seq<string>, q: seq<string>)
    requires Sorted(p) && Sorted(q) && forall y :: y in p <==> y in q
    ensures p == q
    decreases |p|
  {
    hide Less;
    FirstIsIn(q);
    if p != [] {
      assert p[0] in p;
      assert q != [];
      SameFirst(p, q);
      SameRest(p, q);
      SortedIsUnique(p[1..], q[1..]);
      assert p == [p[0]] + p[1..] && q == [q[0]] + q[1..];
    }
  }

  lemma SameFirst(p: seq<string>, q: seq<string>)
    requires Sorted(p) && Sorted(q) && p != [] && q != [] && forall y :: y in p <==> y in q
    ensures p[0] == q[0]
  {
    hide Less;
    assert p[0] in q && q[0] in p;
    var i :| 0 <= i < |q| && q[i] == p[0];
    var j :| 0 <= j < |p| && p[j] == q[0];
    if i > 0 && j > 0 { LessIsStrict(q[0], q[i]); }
  }

  lemma FirstIsIn(p: seq<string>)
    ensures p != [] ==> p[0] in p
  {
  }

  lemma SameRest(p: seq<string>, q: seq<string>)
    requires Sorted(p) && Sorted(q) && p != [] && q != [] && p[0] == q[0] && forall y :: y in p <==> y in q
    ensures forall y :: y in p[1..] <==> y in q[1..]
  {
    hide Sorted;
    RestWithoutFirst(p);
    RestWithoutFirst(q);
  }

  lemma RestWithoutFirst(p: seq<string>)
    requires Sorted(p) && p != []
    ensures forall y :: y in p[1..] <==> y in p && y != p[0]
  {
    hide Less;
    forall y ensures y in p[1..] <==> y in p && y != p[0] {
      assert p == [p[0]] + p[1..];
      if y in p[1..] {
        var i :| 0 <= i < |p[1..]| && p[1..][i] == y;
        LessIsStrict(p[0], p[i + 1]);
      }
    }
  }

  // ---------------------------------------------------------------- names without a bar

  predicate Names(parts: seq<string>) { forall i :: 0 <= i < |parts| ==> parts[i] != "" && BarFree(parts[i]) }

  lemma {:induction false} JoinHasBar(parts: seq<string>)
    requires Names(parts)
    ensures |parts| <= 1 ==> BarFree(Join(parts, "|"))
    ensures |parts| >= 2 ==> !BarFree(Join(parts, "|"))
    ensures |parts| >= 1 ==> Join(parts, "|") != ""
  {
    if |parts| >= 2 {
      var front, last := Join(parts[..|parts| - 1], "|"), parts[|parts| - 1];
      assert (front + "|" + last)[|front|] == '|';
    }
  }

  lemma {:induction false} JoinIsInjective(p: seq<string>, q: seq<string>)
    requires Names(p) && Names(q) && Join(p, "|") == Join(q, "|")
    ensures p == q
    decreases |p|
  {
    JoinHasBar(p);
    JoinHasBar(q);
    if |p| >= 2 {
      var p1, p2, q1, q2 := p[..|p| - 1], p[|p| - 1], q[..|q| - 1], q[|q| - 1];
      SplitAtLastBar(Join(p1, "|"), p2, Join(q1, "|"), q2);
      JoinIsInjective(p1, q1);
      assert p == p1 + [p2] && q == q1 + [q2];
    }
  }

  predicate PlainNames(g: GroupSnapshot) { forall m <- g.members :: BarFree(m.endpoint) }

  lemma EndpointsAreNames(g: GroupSnapshot)
    requires PlainNames(g)
    ensures Names(Endpoints(g))
  {
    hide Sorted;
    EndpointsAre(g);
    forall i | 0 <= i < |Endpoints(g)| ensures Endpoints(g)[i] != "" && BarFree(Endpoints(g)[i]) {
      assert Endpoints(g)[i] in Endpoints(g);
    }
  }

  /** A combination row stands for exactly one set of endpoints. */
  lemma SameKeyIffSameEndpoints(g: GroupSnapshot, h: GroupSnapshot)
    requires PlainNames(g) && PlainNames(h)
    ensures ComboKey(g) == ComboKey(h) <==> NamesIn(g) == NamesIn(h)
  {
    hide Endpoints, NamesIn, Sorted, PlainNames, Names, Join;
    EndpointsAre(g);
    EndpointsAre(h);
    if NamesIn(g) == NamesIn(h) {
      SortedIsUnique(Endpoints(g), Endpoints(h));
    }
    if ComboKey(g) == ComboKey(h) {
      EndpointsAreNames(g);
      EndpointsAreNames(h);
      JoinIsInjective(Endpoints(g), Endpoints(h));
    }
  }

  /** An edge row stands for exactly one unordered pair of endpoints. */
  lemma SameEdgeKeyIffSamePair(g: GroupSnapshot, c: ConnectionSnapshot, h: GroupSnapshot, d: ConnectionSnapshot)
    requires LinkOf(g, c).Some? && LinkOf(h, d).Some? && PlainNames(g) && PlainNames(h)
    ensures var l, m := LinkOf(g, c).value, LinkOf(h, d).value;
            KeyOf(l) == KeyOf(m) <==>
              {g.members[c.from].endpoint, g.members[c.to].endpoint}
                == {h.members[d.from].endpoint, h.members[d.to].endpoint}
  {
    hide Less;
    var a, b := g.members[c.from].endpoint, g.members[c.to].endpoint;
    var x, y := h.members[d.from].endpoint, h.members[d.to].endpoint;
    assert g.members[c.from] in g.members && g.members[c.to] in g.members;
    assert h.members[d.from] in h.members && h.members[d.to] in h.members;
    LessIsTotal(a, b);
    LessIsTotal(x, y);
    Antisymmetric(a, b);
    Antisymmetric(x, y);
    PairKey(a, b, x, y);
  }

  lemma Antisymmetric(a: string, b: string)
    ensures !(Less(a, b) && Less(b, a))
  {
    if Less(a, b) { LessIsStrict(a, b); }
  }

  function Ordered(a: string, b: string): string { if Less(b, a) then b + "|" + a else a + "|" + b }

  lemma PairKey(a: string, b: string, x: string, y: string)
    requires BarFree(a) && BarFree(b) && BarFree(x) && BarFree(y) && a != b && x != y
    requires Less(a, b) != Less(b, a) && Less(x, y) != Less(y, x)
    ensures Ordered(a, b) == Ordered(x, y) <==> {a, b} == {x, y}
  {
    hide Less;
    var p, q := if Less(b, a) then b else a, if Less(b, a) then a else b;
    var v, w := if Less(y, x) then y else x, if Less(y, x) then x else y;
    assert {a, b} == {p, q} && {x, y} == {v, w};
    if p + "|" + q == v + "|" + w { SplitAtLastBar(p, q, v, w); }
    if {p, q} == {v, w} {
      assert p in {v, w} && q in {v, w};
    }
  }
}
