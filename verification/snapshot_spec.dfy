/** CORRELATOR/correlated_snapshot_writer.cpp: the all-time aggregates over drained groups, kept incrementally. */
module SnapshotSpec {
  import opened Text
  import opened Hashing
  import opened JsonNumbers
  import EvidenceGraph
  import UnifiedSpec

  const MAX_HELD: nat := 2000
  const MAX_EXAMPLES: nat := 5

  datatype MemberSnapshot = MemberSnapshot(
    endpoint: string, recordType: string, firstSeen: int, lastSeen: int, repeatCount: nat,
    pid: nat, parentPid: nat, nativeSourceFile: string, nativeRecordId: string, rawLine: string)

  datatype ConnectionSnapshot = ConnectionSnapshot(from: nat, to: nat, reason: string, matchedFields: seq<string>,
                                                   delta: int, confidence: string, score: real, caveat: string)

  datatype GroupSnapshot = GroupSnapshot(
    id: nat, firstSeen: int, lastSeen: int, recordsObserved: nat, operationalOnly: bool, connected: bool,
    members: seq<MemberSnapshot>, connections: seq<ConnectionSnapshot>)

  // ---------------------------------------------------------------- UnifiedStreamEngine::ToSnapshot

  function MemberToSnapshot(m: UnifiedSpec.Member): MemberSnapshot {
    MemberSnapshot(m.first.endpoint, m.first.recordType, m.firstSeen, m.lastSeen, m.repeatCount, m.first.pid,
                   m.first.parentPid,
                   m.first.nativeSourceFile, m.first.nativeRecordId, m.first.rawLine)
  }

  function ConnectionToSnapshot(c: EvidenceGraph.Connection): ConnectionSnapshot {
    ConnectionSnapshot(c.from, c.to, c.edge.reason, c.edge.matchedFields, c.edge.delta, c.edge.confidence, c.edge.score,
                       c.edge.caveat)
  }

  function ToSnapshot(g: UnifiedSpec.Group): (r: GroupSnapshot)
    ensures |r.members| == |g.members| && |r.connections| == |g.connections|
  {
    GroupSnapshot(g.id, g.firstSeen, g.lastSeen, g.recordsObserved, g.operationalOnly, g.connections != [],
                  seq(|g.members|, i requires 0 <= i < |g.members| => MemberToSnapshot(g.members[i])),
                  seq(|g.connections|, i requires 0 <= i < |g.connections| => ConnectionToSnapshot(g.connections[i])))
  }

  // ---------------------------------------------------------------- ordered sets of names

  /** `std::string` order: byte by byte, a prefix first. */
  predicate Less(s: string, t: string) {
    t != "" && (s == "" || s[0] < t[0] || (s[0] == t[0] && Less(s[1..], t[1..])))
  }

  /** Insertion into a `std::set<std::string>` listed in order. */
  function Inserted(names: seq<string>, x: string): seq<string> {
    if names == [] then [x]
    else if names[0] == x then names
    else if Less(x, names[0]) then [x] + names
    else [names[0]] + Inserted(names[1..], x)
  }

  // ---------------------------------------------------------------- edges between endpoints

  /** One countable connection between two endpoints. */
  datatype Link = Link(a: string, b: string, reason: string, confidence: string, score: real)

  function KeyOf(l: Link): string { l.a + "|" + l.b }

  datatype EdgeAggregate = EdgeAggregate(a: string, b: string, count: nat, reasons: map<string, nat>,
                                         lastReason: string, strongest: string, strongestScore: real)

  const NO_AGGREGATE := EdgeAggregate("", "", 0, map[], "", "", 0.0)

  /** The link a connection counts as, with its endpoints in order. */
  function LinkOf(g: GroupSnapshot, c: ConnectionSnapshot): Option<Link> {
    if c.from >= |g.members| || c.to >= |g.members| then None
    else
      var a, b := g.members[c.from].endpoint, g.members[c.to].endpoint;
      if a == "" || b == "" || a == b then None
      else if Less(b, a) then Some(Link(b, a, c.reason, c.confidence, c.score))
      else Some(Link(a, b, c.reason, c.confidence, c.score))
  }

  function CountOne(counts: map<string, nat>, key: string): map<string, nat> {
    counts[key := (if key in counts then counts[key] else 0) + 1]
  }

  function Counted(e: EdgeAggregate, l: Link): EdgeAggregate {
    var stronger := l.score >= e.strongestScore;
    EdgeAggregate(l.a, l.b, e.count + 1, CountOne(e.reasons, l.reason), l.reason,
                  if stronger then l.confidence else e.strongest,
                  if stronger then l.score else e.strongestScore)
  }

  function AddLink(edges: map<string, EdgeAggregate>, l: Link): map<string, EdgeAggregate> {
    edges[KeyOf(l) := Counted(if KeyOf(l) in edges then edges[KeyOf(l)] else NO_AGGREGATE, l)]
  }

  /** `UpdateEndpointGraph`, for the first `n` connections. */
  function Edges(edges: map<string, EdgeAggregate>, g: GroupSnapshot, n: nat): map<string, EdgeAggregate>
    requires n <= |g.connections|
  {
    if n == 0 then edges
    else
      match LinkOf(g, g.connections[n - 1])
      case None => Edges(edges, g, n - 1)
      case Some(l) => AddLink(Edges(edges, g, n - 1), l)
  }

  // ---------------------------------------------------------------- combinations of endpoints

  datatype Combination = Combination(endpoints: seq<string>, incidents: nat, examples: seq<string>)

  /** The endpoints of the first `n` members, in order. */
  function EndpointsOf(members: seq<MemberSnapshot>, n: nat): seq<string>
    requires n <= |members|
  {
    if n == 0 then []
    else if members[n - 1].endpoint == "" then EndpointsOf(members, n - 1)
    else Inserted(EndpointsOf(members, n - 1), members[n - 1].endpoint)
  }

  function Endpoints(g: GroupSnapshot): seq<string> { EndpointsOf(g.members, |g.members|) }

  function ComboKey(g: GroupSnapshot): string { Join(Endpoints(g), "|") }

  function Upper(c: char): char {
    if 'a' <= c <= 'z' then (c as nat - 32) as char else c
  }

  /** The id under which a group is reported. */
  function CorrId(id: nat): string {
    var hash := HexHash("group:" + Decimal(id));
    "CG-" + seq(8, i requires 0 <= i < 8 => Upper(hash[i]))
  }

  function Combined(c: Combination, g: GroupSnapshot): Combination {
    Combination(if c.endpoints == [] then Endpoints(g) else c.endpoints, c.incidents + 1,
                if |c.examples| < MAX_EXAMPLES then c.examples + [CorrId(g.id)] else c.examples)
  }

  /** `UpdateEndpointCombinations`. */
  function AddCombination(combos: map<string, Combination>, g: GroupSnapshot): map<string, Combination> {
    if Endpoints(g) == [] then combos
    else
      var key := ComboKey(g);
      combos[key := Combined(if key in combos then combos[key] else Combination([], 0, []), g)]
  }

  // ---------------------------------------------------------------- AddGroups

  datatype State = State(held: seq<GroupSnapshot>, totalGroups: nat, totalEvents: nat, operationalExcluded: nat,
                         known: set<string>, edges: map<string, EdgeAggregate>, combos: map<string, Combination>,
                         dirty: bool)

  const EMPTY := State([], 0, 0, 0, {}, map[], map[], false)

  function NamesIn(g: GroupSnapshot): set<string> { set m <- g.members | m.endpoint != "" :: m.endpoint }

  function AddOne(s: State, g: GroupSnapshot): State {
    if g.operationalOnly then s.(operationalExcluded := s.operationalExcluded + 1)
    else
      State(s.held + [g], s.totalGroups + 1, s.totalEvents + g.recordsObserved, s.operationalExcluded,
            s.known + NamesIn(g),
            Edges(s.edges, g, |g.connections|), AddCombination(s.combos, g), true)
  }

  function AddEach(s: State, gs: seq<GroupSnapshot>): State {
    if gs == [] then s else AddOne(AddEach(s, gs[..|gs| - 1]), gs[|gs| - 1])
  }

  function LastHeld(held: seq<GroupSnapshot>): seq<GroupSnapshot> {
    if |held| > MAX_HELD then held[|held| - MAX_HELD..] else held
  }

  function AddGroups(s: State, gs: seq<GroupSnapshot>): State {
    var s' := AddEach(s, gs);
    s'.(held := LastHeld(s'.held))
  }
}
