/** What the unified stream engine's groups mean: every accepted record, in order of acceptance, has one home. */
module UnifiedHistory {
  import opened Hashing
  import opened Evidence
  import opened EvidenceGraph
  import opened UnifiedSpec

  datatype Slot = Slot(group: nat, member: nat)

  /** The run so far: the accepted records in order, for every group and member the ordinals of the records it
      stands for, the place of every record, and the groups handed out by drains. */
  datatype History = History(accepted: seq<Arrival>, evidence: map<nat, seq<seq<nat>>>, home: seq<Slot>,
                             emitted: seq<Group>)

  predicate IsBlank(h: History) { h.accepted == [] && h.evidence == map[] && h.home == [] && h.emitted == [] }

  /** The lists of a group whose new last member stands for record n. */
  function NewLast(e: seq<seq<nat>>, n: nat): seq<seq<nat>> { e + [[n]] }

  // ---------------------------------------------------------------- one member, one connection, one group

  ghost predicate Increasing(ks: seq<nat>) {
    forall i, j :: 0 <= i < j < |ks| ==> ks[i] < ks[j]
  }

  /** The member stands for exactly the records `ks`: its first and last are theirs, its count is their number. */
  ghost predicate MemberBacked(m: Member, ks: seq<nat>, acc: seq<Arrival>) {
    && ks != [] && |ks| == m.repeatCount && Increasing(ks) && (forall i :: 0 <= i < |ks| ==> ks[i] < |acc|)
    && m.first == acc[ks[0]].record && m.firstSeen == acc[ks[0]].eventMs
    && m.last == acc[ks[|ks| - 1]].record && m.lastSeen == acc[ks[|ks| - 1]].eventMs
    && (forall k <- ks :: acc[k].record.endpoint == m.first.endpoint && acc[k].fingerprint == m.fingerprint)
  }

  ghost predicate EdgeBetween(a: Record, b: Record, e: Edge) {
    e == EvaluateEdge(a, b, CORRELATION_WINDOW_MS) && Usable(a, b, e)
  }

  /** The connection is the edge between a record of its earlier member and the first record of its later one. */
  ghost predicate ConnectionBacked(c: Connection, ms: seq<Member>, e: seq<seq<nat>>, acc: seq<Arrival>) {
    && c.from < |ms| && c.to < |ms| && |e| == |ms|
    && exists k :: k in e[c.from] && k < |acc| && EdgeBetween(acc[k].record, ms[c.to].first, c.edge)
  }

  function TotalRepeats(ms: seq<Member>): nat {
    if ms == [] then 0 else TotalRepeats(ms[..|ms| - 1]) + ms[|ms| - 1].repeatCount
  }

  ghost predicate MembersBacked(ms: seq<Member>, e: seq<seq<nat>>, acc: seq<Arrival>, operational: bool) {
    && |e| == |ms| > 0
    && (forall i :: 0 <= i < |ms| ==> MemberBacked(ms[i], e[i], acc))
    && (forall i, k :: 0 <= i < |e| && k in e[i] ==> k < |acc| && acc[k].operational == operational)
  }

  /** The group's times are the earliest first sighting and the latest record time. */
  ghost predicate TimesBacked(ms: seq<Member>, firstSeen: int, lastSeen: int, e: seq<seq<nat>>, acc: seq<Arrival>) {
    && (forall m <- ms :: firstSeen <= m.firstSeen)
    && (exists m <- ms :: firstSeen == m.firstSeen)
    && (forall i, k :: 0 <= i < |e| && k in e[i] && k < |acc| ==> acc[k].eventMs <= lastSeen)
    && (exists i, k :: 0 <= i < |e| && k in e[i] && k < |acc| && acc[k].eventMs == lastSeen)
  }

  /** Everything about a group except the shape of its graph. */
  ghost predicate RecordsBacked(g: Group, e: seq<seq<nat>>, acc: seq<Arrival>) {
    && MembersBacked(g.members, e, acc, g.operationalOnly)
    && TimesBacked(g.members, g.firstSeen, g.lastSeen, e, acc)
    && (forall c <- g.connections :: ConnectionBacked(c, g.members, e, acc))
    && g.recordsObserved == TotalRepeats(g.members)
    && (g.operationalOnly ==> |g.members| == 1 && g.members[0].repeatCount == 1)
    && |g.members| <= MAX_MEMBERS
  }

  ghost predicate GroupBacked(g: Group, e: seq<seq<nat>>, acc: seq<Arrival>) {
    RecordsBacked(g, e, acc) && SpanningTree(g.connections, |g.members|)
  }

  /** Fingerprints of operational records carry a bar, those of activity never do. */
  predicate Marked(a: Arrival) {
    a.operational <==> '|' in a.fingerprint
  }

  // ---------------------------------------------------------------- operational and activity fingerprints never meet

  lemma IdentityHasBar(r: Record)
    ensures '|' in ExactIdentity(r)
  {
    var id := ExactIdentity(r);
    assert id[|r.endpoint|] == '|';
  }

  lemma HashHasNoBar(s: string)
    ensures '|' !in HexHash(s)
  {
    var h := HexHash(s);
    forall i | 0 <= i < |h| ensures h[i] != '|' {
      assert h[i] in "0123456789abcdef";
    }
  }

  /** An activity record can never be taken for a repeat of an operational one, nor the other way round. */
  lemma FingerprintsTellKindsApart(endpoint: string, line: string, wall: int)
    ensures Marked(Observe(endpoint, line, wall))
  {
    var r := KeptRecord(endpoint, line);
    IdentityHasBar(r);
    HashHasNoBar(SemanticKey(r));
  }

  // ---------------------------------------------------------------- growing the accepted list

  lemma MemberBackedGrows(m: Member, ks: seq<nat>, acc: seq<Arrival>, a: Arrival)
    requires MemberBacked(m, ks, acc)
    ensures MemberBacked(m, ks, acc + [a])
  {
    assert ks[0] in ks && ks[|ks| - 1] in ks;
  }

  lemma ConnectionBackedGrows(c: Connection, ms: seq<Member>, e: seq<seq<nat>>, acc: seq<Arrival>, a: Arrival)
    requires ConnectionBacked(c, ms, e, acc)
    ensures ConnectionBacked(c, ms, e, acc + [a])
  {
    var k :| k in e[c.from] && k < |acc| && EdgeBetween(acc[k].record, ms[c.to].first, c.edge);
    assert (acc + [a])[k] == acc[k];
  }

  lemma MembersBackedGrow(ms: seq<Member>, e: seq<seq<nat>>, acc: seq<Arrival>, operational: bool, a: Arrival)
    requires MembersBacked(ms, e, acc, operational)
    ensures MembersBacked(ms, e, acc + [a], operational)
  {
    forall i | 0 <= i < |ms| ensures MemberBacked(ms[i], e[i], acc + [a]) {
      MemberBackedGrows(ms[i], e[i], acc, a);
    }
  }

  lemma OrdinalsInRange(ms: seq<Member>, e: seq<seq<nat>>, acc: seq<Arrival>, operational: bool)
    requires MembersBacked(ms, e, acc, operational)
    ensures forall i, k :: 0 <= i < |e| && k in e[i] ==> k < |acc|
  {
  }

  lemma TimesBackedGrow(ms: seq<Member>, firstSeen: int, lastSeen: int, e: seq<seq<nat>>, acc: seq<Arrival>, a: Arrival)
    requires forall i, k :: 0 <= i < |e| && k in e[i] ==> k < |acc|
    requires TimesBacked(ms, firstSeen, lastSeen, e, acc)
    ensures TimesBacked(ms, firstSeen, lastSeen, e, acc + [a])
  {
    var i, k :| 0 <= i < |e| && k in e[i] && k < |acc| && acc[k].eventMs == lastSeen;
    assert (acc + [a])[k] == acc[k];
  }

  lemma RecordsBackedGrows(g: Group, e: seq<seq<nat>>, acc: seq<Arrival>, a: Arrival)
    requires RecordsBacked(g, e, acc)
    ensures RecordsBacked(g, e, acc + [a])
  {
    MembersBackedGrow(g.members, e, acc, g.operationalOnly, a);
    forall c <- g.connections ensures ConnectionBacked(c, g.members, e, acc + [a]) {
      ConnectionBackedGrows(c, g.members, e, acc, a);
    }
    TimesBackedGrow(g.members, g.firstSeen, g.lastSeen, e, acc, a);
  }

  // ---------------------------------------------------------------- the four ways a group comes about

  /** A repeat lands in the member it repeats. */
  lemma CompactedMember(m: Member, ks: seq<nat>, acc: seq<Arrival>, a: Arrival)
    requires MemberBacked(m, ks, acc) && Repeats(m, a)
    ensures MemberBacked(m.(last := a.record, lastSeen := a.eventMs, repeatCount := m.repeatCount + 1),
                         ks + [|acc|], acc + [a])
  {
    var ks' := ks + [|acc|];
    assert ks'[0] == ks[0] && ks'[|ks'| - 1] == |acc|;
    forall k | k in ks' ensures (acc + [a])[k].record.endpoint == m.first.endpoint
                                && (acc + [a])[k].fingerprint == m.fingerprint {
      if k in ks { assert (acc + [a])[k] == acc[k]; }
    }
  }

  lemma TotalRepeatsUpdate(ms: seq<Member>, i: nat, m: Member)
    requires i < |ms|
    ensures TotalRepeats(ms[i := m]) == TotalRepeats(ms) - ms[i].repeatCount + m.repeatCount
  {
    var ms' := ms[i := m];
    if i < |ms| - 1 {
      assert ms'[..|ms| - 1] == ms[..|ms| - 1][i := m];
      TotalRepeatsUpdate(ms[..|ms| - 1], i, m);
    } else {
      assert ms'[..|ms| - 1] == ms[..|ms| - 1];
    }
  }

  lemma {:induction false} TotalRepeatsAppend(ms: seq<Member>, ns: seq<Member>)
    ensures TotalRepeats(ms + ns) == TotalRepeats(ms) + TotalRepeats(ns)
  {
    if ns == [] {
      assert ms + ns == ms;
    } else {
      assert (ms + ns)[..|ms + ns| - 1] == ms + ns[..|ns| - 1];
      TotalRepeatsAppend(ms, ns[..|ns| - 1]);
    }
  }

  /** Only activity groups are ever compacted into: the kinds cannot be confused. */
  lemma RepeatIsActivity(g: Group, e: seq<seq<nat>>, acc: seq<Arrival>, m: nat, a: Arrival)
    requires RecordsBacked(g, e, acc) && m < |g.members| && Repeats(g.members[m], a)
    requires Marked(a) && !a.operational && (forall b <- acc :: Marked(b))
    ensures !g.operationalOnly
  {
    var k := e[m][0];
    assert MemberBacked(g.members[m], e[m], acc);
    assert k in e[m];
    assert acc[k] in acc;
  }

  lemma CompactedMembers(ms: seq<Member>, e: seq<seq<nat>>, acc: seq<Arrival>, i: nat, m: Member, a: Arrival)
    requires MembersBacked(ms, e, acc, a.operational) && i < |ms|
    requires MemberBacked(m, e[i] + [|acc|], acc + [a])
    ensures MembersBacked(ms[i := m], e[i := e[i] + [|acc|]], acc + [a], a.operational)
  {
    MembersBackedGrow(ms, e, acc, a.operational, a);
    var e' := e[i := e[i] + [|acc|]];
    forall j, k | 0 <= j < |e'| && k in e'[j] ensures k < |acc + [a]| && (acc + [a])[k].operational == a.operational {
      if j != i || k in e[i] { assert k in e[j]; }
    }
  }

  /** Changing a member but not its first record leaves its connections justified. */
  lemma ConnectionBackedAfterRepeat(c: Connection, ms: seq<Member>, e: seq<seq<nat>>, acc: seq<Arrival>,
                                    i: nat, m: Member, a: Arrival)
    requires ConnectionBacked(c, ms, e, acc) && i < |ms| && m.first == ms[i].first
    ensures ConnectionBacked(c, ms[i := m], e[i := e[i] + [|acc|]], acc + [a])
  {
    var k :| k in e[c.from] && k < |acc| && EdgeBetween(acc[k].record, ms[c.to].first, c.edge);
    assert k in e[i := e[i] + [|acc|]][c.from];
    assert (acc + [a])[k] == acc[k];
  }

  lemma CompactedBacked(g: Group, e: seq<seq<nat>>, acc: seq<Arrival>, m: nat, a: Arrival)
    requires GroupBacked(g, e, acc) && m < |g.members| && Repeats(g.members[m], a)
    requires !g.operationalOnly && !a.operational
    ensures GroupBacked(Compacted(g, m, a), e[m := e[m] + [|acc|]], acc + [a])
  {
    hide Connected, EdgeBetween, Repeats, MemberBacked, ConnectionBacked, TimesBacked, TotalRepeats;
    var g', e' := Compacted(g, m, a), e[m := e[m] + [|acc|]];
    var was, now := g.members[m], g'.members[m];
    assert g'.members == g.members[m := now];
    CompactedMember(was, e[m], acc, a);
    CompactedMembers(g.members, e, acc, m, now, a);
    forall c <- g'.connections ensures ConnectionBacked(c, g'.members, e', acc + [a]) {
      ConnectionBackedAfterRepeat(c, g.members, e, acc, m, now, a);
    }
    TotalRepeatsUpdate(g.members, m, now);
    OrdinalsInRange(g.members, e, acc, false);
    CompactedTimes(g, e, acc, m, a);
  }

  lemma CompactedTimes(g: Group, e: seq<seq<nat>>, acc: seq<Arrival>, m: nat, a: Arrival)
    requires m < |g.members| == |e| && TimesBacked(g.members, g.firstSeen, g.lastSeen, e, acc)
    requires forall i, k :: 0 <= i < |e| && k in e[i] ==> k < |acc|
    ensures var g' := Compacted(g, m, a);
            TimesBacked(g'.members, g'.firstSeen, g'.lastSeen, e[m := e[m] + [|acc|]], acc + [a])
  {
    var g', e', acc' := Compacted(g, m, a), e[m := e[m] + [|acc|]], acc + [a];
    var f :| f in g.members && g.firstSeen == f.firstSeen;
    var j :| 0 <= j < |g.members| && g.members[j] == f;
    assert g'.members[j].firstSeen == g'.firstSeen && g'.members[j] in g'.members;
    forall x <- g'.members ensures g'.firstSeen <= x.firstSeen {
      var i :| 0 <= i < |g'.members| && g'.members[i] == x;
      assert g.members[i] in g.members;
    }
    forall i, k | 0 <= i < |e'| && k in e'[i] && k < |acc'| ensures acc'[k].eventMs <= g'.lastSeen {
      if i != m || k in e[m] { assert k in e[i]; }
    }
    if g.lastSeen < a.eventMs {
      assert |acc| in e'[m] && acc'[|acc|] == a;
    } else {
      var i, k :| 0 <= i < |e| && k in e[i] && k < |acc| && acc[k].eventMs == g.lastSeen;
      assert k in e'[i] && acc'[k] == acc[k];
    }
  }

  // ---------------------------------------------------------------- laying two member lists end to end

  lemma MembersJoined(ms: seq<Member>, e: seq<seq<nat>>, ns: seq<Member>, f: seq<seq<nat>>, acc: seq<Arrival>, op: bool)
    requires MembersBacked(ms, e, acc, op) && MembersBacked(ns, f, acc, op)
    ensures MembersBacked(ms + ns, e + f, acc, op)
  {
    var all, ef := ms + ns, e + f;
    forall i | 0 <= i < |all| ensures MemberBacked(all[i], ef[i], acc) {
      if i < |ms| {
        assert all[i] == ms[i] && ef[i] == e[i];
      } else {
        assert all[i] == ns[i - |ms|] && ef[i] == f[i - |ms|];
      }
    }
    forall i, k | 0 <= i < |ef| && k in ef[i] ensures k < |acc| && acc[k].operational == op {
      if i < |e| { assert k in e[i]; } else { assert k in f[i - |e|]; }
    }
  }

  lemma TimesJoined(ms: seq<Member>, first: int, last: int, e: seq<seq<nat>>,
                    ns: seq<Member>, first': int, last': int, f: seq<seq<nat>>, acc: seq<Arrival>)
    requires TimesBacked(ms, first, last, e, acc) && TimesBacked(ns, first', last', f, acc)
    ensures TimesBacked(ms + ns, Min(first, first'), Max(last, last'), e + f, acc)
  {
    var ef := e + f;
    var i, k :| 0 <= i < |e| && k in e[i] && k < |acc| && acc[k].eventMs == last;
    var i', k' :| 0 <= i' < |f| && k' in f[i'] && k' < |acc| && acc[k'].eventMs == last';
    assert k in ef[i] && k' in ef[|e| + i'];
    var m :| m in ms && first == m.firstSeen;
    var m' :| m' in ns && first' == m'.firstSeen;
    assert m in ms + ns && m' in ms + ns;
    forall j, l | 0 <= j < |ef| && l in ef[j] && l < |acc| ensures acc[l].eventMs <= Max(last, last') {
      if j < |e| { assert l in e[j]; } else { assert l in f[j - |e|]; }
    }
  }

  lemma ConnectionKept(c: Connection, ms: seq<Member>, e: seq<seq<nat>>, ns: seq<Member>, f: seq<seq<nat>>,
                       acc: seq<Arrival>)
    requires ConnectionBacked(c, ms, e, acc) && |ns| == |f|
    ensures ConnectionBacked(c, ms + ns, e + f, acc)
  {
    var k :| k in e[c.from] && k < |acc| && EdgeBetween(acc[k].record, ms[c.to].first, c.edge);
    assert k in (e + f)[c.from] && (ms + ns)[c.to] == ms[c.to];
  }

  lemma ConnectionMoved(c: Connection, ms: seq<Member>, e: seq<seq<nat>>, ns: seq<Member>, f: seq<seq<nat>>,
                        acc: seq<Arrival>)
    requires ConnectionBacked(c, ns, f, acc) && |ms| == |e|
    ensures ConnectionBacked(Connection(c.from + |ms|, c.to + |ms|, c.edge), ms + ns, e + f, acc)
  {
    var k :| k in f[c.from] && k < |acc| && EdgeBetween(acc[k].record, ns[c.to].first, c.edge);
    assert k in (e + f)[c.from + |ms|] && (ms + ns)[c.to + |ms|] == ns[c.to];
  }

  // ---------------------------------------------------------------- absorbing a group

  lemma AbsorbedBacked(t: Group, o: Group, e: seq<seq<nat>>, f: seq<seq<nat>>, acc: seq<Arrival>)
    requires RecordsBacked(t, e, acc) && RecordsBacked(o, f, acc)
    requires !t.operationalOnly && !o.operationalOnly && |t.members| + |o.members| < MAX_MEMBERS
    ensures RecordsBacked(Absorbed(t, o), e + f, acc)
  {
    hide EdgeBetween, MemberBacked, ConnectionBacked, TimesBacked, TotalRepeats;
    var g := Absorbed(t, o);
    MembersJoined(t.members, e, o.members, f, acc, false);
    TimesJoined(t.members, t.firstSeen, t.lastSeen, e, o.members, o.firstSeen, o.lastSeen, f, acc);
    TotalRepeatsAppend(t.members, o.members);
    forall c <- g.connections ensures ConnectionBacked(c, g.members, e + f, acc) {
      var i :| 0 <= i < |g.connections| && g.connections[i] == c;
      if i < |t.connections| {
        assert t.connections[i] == c;
        ConnectionKept(c, t.members, e, o.members, f, acc);
      } else {
        var was := o.connections[i - |t.connections|];
        assert was in o.connections;
        ConnectionMoved(was, t.members, e, o.members, f, acc);
      }
    }
  }

  // ---------------------------------------------------------------- the new record's own member

  lemma NewMemberBacked(a: Arrival, incoming: Edge, acc: seq<Arrival>)
    ensures MembersBacked([NewMember(a, incoming)], [[|acc|]], acc + [a], a.operational)
    ensures TimesBacked([NewMember(a, incoming)], a.eventMs, a.eventMs, [[|acc|]], acc + [a])
    ensures TotalRepeats([NewMember(a, incoming)]) == 1
  {
    var m := NewMember(a, incoming);
    var e: seq<seq<nat>> := [[|acc|]];
    assert MemberBacked(m, e[0], acc + [a]);
    assert m in [m] && |acc| in e[0] && (acc + [a])[|acc|] == a;
    assert TotalRepeats([m][..0]) == 0;
  }

  lemma NewGroupBacked(id: nat, a: Arrival, acc: seq<Arrival>)
    ensures GroupBacked(NewGroup(id, a), [[|acc|]], acc + [a])
  {
    NewMemberBacked(a, NO_EDGE, acc);
    LinkedToSelf([], 0);
  }

  /** The candidate edges a new record brings are the edges to records of the members they name. */
  ghost predicate BridgeBacked(b: Bridge, e: seq<seq<nat>>, acc: seq<Arrival>, a: Arrival) {
    b.from < |e| && exists k :: k in e[b.from] && k < |acc| && EdgeBetween(acc[k].record, a.record, b.edge)
  }

  lemma BridgeBecomesConnection(b: Bridge, ms: seq<Member>, e: seq<seq<nat>>, acc: seq<Arrival>, a: Arrival, m: Member)
    requires BridgeBacked(b, e, acc, a) && |ms| == |e| && m.first == a.record
    ensures ConnectionBacked(Connection(b.from, |ms|, b.edge), ms + [m], NewLast(e, |acc|), acc + [a])
  {
    var k :| k in e[b.from] && k < |acc| && EdgeBetween(acc[k].record, a.record, b.edge);
    assert k in NewLast(e, |acc|)[b.from] && (acc + [a])[k] == acc[k];
    assert (ms + [m])[|ms|] == m;
  }

  lemma ExtendedBacked(g: Group, e: seq<seq<nat>>, acc: seq<Arrival>, a: Arrival, bridges: seq<Bridge>, incoming: Edge)
    requires RecordsBacked(g, e, acc) && !g.operationalOnly && !a.operational && |g.members| < MAX_MEMBERS
    requires forall b <- bridges :: BridgeBacked(b, e, acc, a)
    ensures RecordsBacked(Extended(g, a, bridges, incoming), NewLast(e, |acc|), acc + [a])
  {
    hide EdgeBetween, MemberBacked, ConnectionBacked, TimesBacked, TotalRepeats, BridgeBacked;
    var m := NewMember(a, incoming);
    var g', e', acc' := Extended(g, a, bridges, incoming), NewLast(e, |acc|), acc + [a];
    RecordsBackedGrows(g, e, acc, a);
    NewMemberBacked(a, incoming, acc);
    MembersJoined(g.members, e, [m], [[|acc|]], acc', false);
    TimesJoined(g.members, g.firstSeen, g.lastSeen, e, [m], a.eventMs, a.eventMs, [[|acc|]], acc');
    TotalRepeatsAppend(g.members, [m]);
    forall c <- g'.connections ensures ConnectionBacked(c, g'.members, e', acc') {
      var i :| 0 <= i < |g'.connections| && g'.connections[i] == c;
      if i < |g.connections| {
        assert g.connections[i] == c;
        ConnectionKept(c, g.members, e, [m], [[|acc|]], acc');
      } else {
        var b := bridges[i - |g.connections|];
        assert b in bridges;
        BridgeBecomesConnection(b, g.members, e, acc, a, m);
      }
    }
  }

  // ---------------------------------------------------------------- the shape of the graph while stories merge

  ghost predicate Rooted(cs: seq<Connection>, v: nat, bridges: seq<Bridge>) {
    exists b <- bridges :: Linked(cs, v, b.from)
  }

  /** While a record's stories are being merged, their trees lie side by side: each vertex hangs on one bridge. */
  ghost predicate RootedForest(cs: seq<Connection>, n: nat, bridges: seq<Bridge>) {
    && |cs| + |bridges| == n && Forward(cs, n)
    && (forall b <- bridges :: b.from < n)
    && (forall v: nat :: v < n ==> Rooted(cs, v, bridges))
  }

  lemma TreeIsRooted(cs: seq<Connection>, n: nat, b: Bridge)
    requires SpanningTree(cs, n) && b.from < n
    ensures RootedForest(cs, n, [b])
  {
    forall v: nat | v < n ensures Rooted(cs, v, [b]) {
      assert b in [b] && Linked(cs, v, b.from);
    }
  }

  lemma ForwardJoined(cs: seq<Connection>, n: nat, ds: seq<Connection>, m: nat)
    requires Forward(cs, n) && Forward(ds, m)
    ensures Forward(cs + Shifted(ds, n), n + m)
  {
    var all := cs + Shifted(ds, n);
    forall c <- all ensures c.from < c.to < n + m {
      var i :| 0 <= i < |all| && all[i] == c;
      if i < |cs| { assert cs[i] == c; } else { assert ds[i - |cs|] in ds; }
    }
  }

  lemma ShiftedIn(cs: seq<Connection>, n: nat, ds: seq<Connection>)
    ensures forall d <- ds :: exists x <- cs + Shifted(ds, n) :: x.from == d.from + n && x.to == d.to + n
  {
    var all := cs + Shifted(ds, n);
    forall d <- ds ensures exists x <- all :: x.from == d.from + n && x.to == d.to + n {
      var i :| 0 <= i < |ds| && ds[i] == d;
      assert all[|cs| + i] in all;
    }
  }

  lemma ForestsJoined(cs: seq<Connection>, n: nat, bridges: seq<Bridge>, ds: seq<Connection>, m: nat, b: Bridge)
    requires RootedForest(cs, n, bridges) && SpanningTree(ds, m) && b.from < m
    ensures RootedForest(cs + Shifted(ds, n), n + m, bridges + [Bridge(n + b.from, b.edge)])
  {
    hide Linked, Adjacent;
    var all, b', bs := cs + Shifted(ds, n), Bridge(n + b.from, b.edge), bridges + [Bridge(n + b.from, b.edge)];
    ForwardJoined(cs, n, ds, m);
    forall v: nat | v < n + m ensures Rooted(all, v, bs) {
      if v < n {
        RootKept(cs, n, bridges, ds, v, b');
      } else {
        RootMoved(cs, n, bridges, ds, m, b, v - n);
      }
    }
  }

  lemma RootKept(cs: seq<Connection>, n: nat, bridges: seq<Bridge>, ds: seq<Connection>, v: nat, b: Bridge)
    requires Rooted(cs, v, bridges)
    ensures Rooted(cs + Shifted(ds, n), v, bridges + [b])
  {
    hide Linked, Adjacent;
    var r :| r in bridges && Linked(cs, v, r.from);
    LinkedMono(cs, cs + Shifted(ds, n), v, r.from);
    assert r in bridges + [b];
  }

  lemma RootMoved(cs: seq<Connection>, n: nat, bridges: seq<Bridge>, ds: seq<Connection>, m: nat, b: Bridge, v: nat)
    requires Connected(ds, m) && v < m && b.from < m
    ensures Rooted(cs + Shifted(ds, n), v + n, bridges + [Bridge(n + b.from, b.edge)])
  {
    var b' := Bridge(n + b.from, b.edge);
    ShiftedIn(cs, n, ds);
    assert Linked(ds, v, b.from);
    LinkedShift(ds, cs + Shifted(ds, n), n, v, b.from);
    assert b' in bridges + [b'];
  }

  /** Bridging every tree of the forest to one new vertex makes a single spanning tree. */
  lemma ForestBecomesTree(cs: seq<Connection>, n: nat, bridges: seq<Bridge>)
    requires RootedForest(cs, n, bridges)
    ensures SpanningTree(cs + BridgesTo(bridges, n), n + 1)
  {
    var added := BridgesTo(bridges, n);
    var all := cs + added;
    forall c <- all ensures c.from < c.to < n + 1 {
      var i :| 0 <= i < |all| && all[i] == c;
      if i < |cs| { assert cs[i] == c; } else { assert bridges[i - |cs|] in bridges; }
    }
    forall v: nat | v < n + 1 ensures Linked(all, v, n) {
      if v == n {
        LinkedToSelf(all, n);
      } else {
        assert Rooted(cs, v, bridges);
        var b :| b in bridges && Linked(cs, v, b.from);
        LinkedMono(cs, all, v, b.from);
        var i :| 0 <= i < |bridges| && bridges[i] == b;
        assert added[i] == Connection(b.from, n, b.edge) && all[|cs| + i] == added[i];
        LinkedByEdge(all, added[i]);
        LinkedTrans(all, v, b.from, n);
      }
    }
    ConnectedThroughHub(all, n + 1, n);
  }
}
