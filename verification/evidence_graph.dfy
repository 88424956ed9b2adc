/** The graph formed by the members of a group and the connections between them. */
module EvidenceGraph {
  import opened Evidence

  datatype Connection = Connection(from: nat, to: nat, edge: Edge)

  predicate Adjacent(cs: seq<Connection>, a: nat, b: nat) {
    exists c <- cs :: (c.from == a && c.to == b) || (c.from == b && c.to == a)
  }

  predicate IsPath(cs: seq<Connection>, p: seq<nat>) {
    p != [] && forall i :: 0 <= i < |p| - 1 ==> Adjacent(cs, p[i], p[i + 1])
  }

  ghost predicate Linked(cs: seq<Connection>, a: nat, b: nat) {
    exists p: seq<nat> :: IsPath(cs, p) && p[0] == a && p[|p| - 1] == b
  }

  /** All of the vertices below `n` hang together. */
  ghost predicate Connected(cs: seq<Connection>, n: nat) {
    forall a: nat, b: nat :: a < n && b < n ==> Linked(cs, a, b)
  }

  /** Every connection runs from an earlier vertex to a later one, both below `n`. */
  predicate Forward(cs: seq<Connection>, n: nat) {
    forall c <- cs :: c.from < c.to < n
  }

  /** A spanning tree of the vertices below `n`. */
  ghost predicate SpanningTree(cs: seq<Connection>, n: nat) {
    |cs| == n - 1 && Forward(cs, n) && Connected(cs, n)
  }

  // ---------------------------------------------------------------- linkage

  lemma LinkedToSelf(cs: seq<Connection>, a: nat)
    ensures Linked(cs, a, a)
  {
    var p: seq<nat> := [a];
    assert IsPath(cs, p);
  }

  lemma LinkedByEdge(cs: seq<Connection>, c: Connection)
    requires c in cs
    ensures Linked(cs, c.from, c.to)
  {
    var p := [c.from, c.to];
    assert Adjacent(cs, p[0], p[1]);
    assert IsPath(cs, p);
  }

  lemma LinkedTrans(cs: seq<Connection>, a: nat, b: nat, c: nat)
    requires Linked(cs, a, b) && Linked(cs, b, c)
    ensures Linked(cs, a, c)
  {
    var p: seq<nat> :| IsPath(cs, p) && p[0] == a && p[|p| - 1] == b;
    var q: seq<nat> :| IsPath(cs, q) && q[0] == b && q[|q| - 1] == c;
    var r := p + q[1..];
    forall i | 0 <= i < |r| - 1 ensures Adjacent(cs, r[i], r[i + 1]) {
      if i < |p| - 1 {
        assert r[i] == p[i] && r[i + 1] == p[i + 1];
      } else {
        assert r[i] == q[i - |p| + 1] && r[i + 1] == q[i - |p| + 2];
      }
    }
    assert IsPath(cs, r);
  }

  lemma LinkedSym(cs: seq<Connection>, a: nat, b: nat)
    requires Linked(cs, a, b)
    ensures Linked(cs, b, a)
  {
    var p: seq<nat> :| IsPath(cs, p) && p[0] == a && p[|p| - 1] == b;
    var r := seq(|p|, i requires 0 <= i < |p| => p[|p| - 1 - i]);
    forall i | 0 <= i < |r| - 1 ensures Adjacent(cs, r[i], r[i + 1]) {
      assert Adjacent(cs, p[|p| - 2 - i], p[|p| - 2 - i + 1]);
    }
    assert IsPath(cs, r) && r[0] == b && r[|r| - 1] == a;
  }

  /** Links survive when every connection survives, moved by `offset`. */
  lemma LinkedShift(cs: seq<Connection>, ds: seq<Connection>, offset: nat, a: nat, b: nat)
    requires forall c <- cs :: exists d <- ds :: d.from == c.from + offset && d.to == c.to + offset
    requires Linked(cs, a, b)
    ensures Linked(ds, a + offset, b + offset)
  {
    var p: seq<nat> :| IsPath(cs, p) && p[0] == a && p[|p| - 1] == b;
    var r: seq<nat> := seq(|p|, i requires 0 <= i < |p| => p[i] + offset);
    forall i | 0 <= i < |r| - 1 ensures Adjacent(ds, r[i], r[i + 1]) {
      assert Adjacent(cs, p[i], p[i + 1]);
    }
    assert IsPath(ds, r) && r[0] == a + offset && r[|r| - 1] == b + offset;
  }

  lemma LinkedMono(cs: seq<Connection>, ds: seq<Connection>, a: nat, b: nat)
    requires forall c <- cs :: c in ds
    requires Linked(cs, a, b)
    ensures Linked(ds, a, b)
  {
    var p: seq<nat> :| IsPath(cs, p) && p[0] == a && p[|p| - 1] == b;
    forall i | 0 <= i < |p| - 1 ensures Adjacent(ds, p[i], p[i + 1]) {
      assert Adjacent(cs, p[i], p[i + 1]);
    }
    assert IsPath(ds, p);
  }

  /** If every vertex is linked to `hub`, all vertices are linked to each other. */
  lemma ConnectedThroughHub(cs: seq<Connection>, n: nat, hub: nat)
    requires forall a: nat :: a < n ==> Linked(cs, a, hub)
    ensures Connected(cs, n)
  {
    forall a: nat, b: nat | a < n && b < n ensures Linked(cs, a, b) {
      LinkedSym(cs, b, hub);
      LinkedTrans(cs, a, hub, b);
    }
  }

  // ---------------------------------------------------------------- a spanning tree has nothing to spare

  /** The component representative of `v` after the first k connections. */
  ghost function Component(cs: seq<Connection>, k: nat, v: nat): nat
    requires k <= |cs|
  {
    if k == 0 then v
    else
      var c := cs[k - 1];
      var r := Component(cs, k - 1, v);
      if r == Component(cs, k - 1, c.to) then Component(cs, k - 1, c.from) else r
  }

  ghost function Components(cs: seq<Connection>, k: nat, n: nat): set<nat>
    requires k <= |cs|
  {
    set v | 0 <= v < n :: Component(cs, k, v)
  }

  lemma {:induction false} ComponentsAtStart(cs: seq<Connection>, n: nat)
    ensures |Components(cs, 0, n)| == n
    decreases n
  {
    if n > 0 {
      ComponentsAtStart(cs, n - 1);
      assert Component(cs, 0, n - 1) == n - 1;
      assert Components(cs, 0, n) == Components(cs, 0, n - 1) + {n - 1};
    }
  }

  /** Each connection joins at most two components. */
  lemma {:induction false} ComponentsShrinkSlowly(cs: seq<Connection>, k: nat, n: nat)
    requires k <= |cs|
    ensures |Components(cs, k, n)| >= n - k
  {
    if k == 0 {
      ComponentsAtStart(cs, n);
    } else {
      ComponentsShrinkSlowly(cs, k - 1, n);
      var before, after := Components(cs, k - 1, n), Components(cs, k, n);
      var lost := Component(cs, k - 1, cs[k - 1].to);
      forall r | r in before && r != lost ensures r in after {
        var v :| 0 <= v < n && Component(cs, k - 1, v) == r;
        assert Component(cs, k, v) == r;
      }
      assert before - {lost} <= after;
      SubsetSize(before - {lost}, after);
    }
  }

  lemma {:induction false} SubsetSize<T>(a: set<T>, b: set<T>)
    requires a <= b
    ensures |a| <= |b|
  {
    if a != {} {
      var x :| x in a;
      SubsetSize(a - {x}, b - {x});
    }
  }

  lemma {:induction false} JoinedStayTogether(cs: seq<Connection>, i: nat, k: nat)
    requires i < k <= |cs|
    ensures Component(cs, k, cs[i].from) == Component(cs, k, cs[i].to)
    decreases k
  {
    if i < k - 1 { JoinedStayTogether(cs, i, k - 1); }
  }

  lemma {:induction false} PathInOneComponent(cs: seq<Connection>, p: seq<nat>)
    requires IsPath(cs, p)
    ensures Component(cs, |cs|, p[0]) == Component(cs, |cs|, p[|p| - 1])
    decreases |p|
  {
    if |p| > 1 {
      assert Adjacent(cs, p[0], p[1]);
      var c :| c in cs && ((c.from == p[0] && c.to == p[1]) || (c.from == p[1] && c.to == p[0]));
      var i :| 0 <= i < |cs| && cs[i] == c;
      JoinedStayTogether(cs, i, |cs|);
      var rest := p[1..];
      forall j | 0 <= j < |rest| - 1 ensures Adjacent(cs, rest[j], rest[j + 1]) {
        assert Adjacent(cs, p[j + 1], p[j + 1 + 1]);
      }
      PathInOneComponent(cs, rest);
    }
  }

  /** Connecting n vertices takes at least n - 1 connections. */
  lemma ConnectedNeedsEdges(cs: seq<Connection>, n: nat)
    requires Connected(cs, n) && n > 0
    ensures |cs| >= n - 1
  {
    var reps := Components(cs, |cs|, n);
    var r := Component(cs, |cs|, 0);
    forall v | 0 <= v < n ensures Component(cs, |cs|, v) == r {
      assert Linked(cs, 0, v);
      var p: seq<nat> :| IsPath(cs, p) && p[0] == 0 && p[|p| - 1] == v;
      PathInOneComponent(cs, p);
    }
    assert reps <= {r};
    SubsetSize(reps, {r});
    ComponentsShrinkSlowly(cs, |cs|, n);
  }

  /** In a spanning tree every connection matters: leaving any one out disconnects the group. */
  lemma EveryConnectionMatters(cs: seq<Connection>, n: nat, i: nat)
    requires SpanningTree(cs, n) && i < |cs|
    ensures !Connected(cs[..i] + cs[i + 1..], n)
  {
    if Connected(cs[..i] + cs[i + 1..], n) {
      ConnectedNeedsEdges(cs[..i] + cs[i + 1..], n);
    }
  }
}
