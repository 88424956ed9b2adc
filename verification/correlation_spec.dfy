/** CORRELATOR/correlation_engine.cpp and .h: the rings of recent records, the evidence groups grown from them,
    and one correlation cycle, as functions of the engine's state. */
module CorrelationSpec {
  import opened Text
  import opened Evidence

  const MAX_PER_ENDPOINT: nat := 2000
  const MAX_AGE_MS: int := 30 * 60 * 1000
  const JOIN_WINDOW_MS: int := 2000
  const MAX_JOINS_PER_CYCLE: nat := 100
  const MAX_JOINS_PER_RECORD: nat := 4
  const MAX_GROUP_SIZE: nat := 8
  const MAX_ACTIVE_GROUPS: nat := 500
  const PORT_PREFILTER_MS: int := 6 * 60 * 60 * 1000
  const RAW_LINE_LIMIT: nat := 4096

  /** A record in an endpoint's ring; `group` is 0 until it joins one. */
  datatype RingRecord = RingRecord(id: nat, record: Record, group: nat, partners: seq<nat>)

  /** `edge` says why the member joined; the anchor has none. */
  datatype GroupMember = GroupMember(id: nat, record: Record, edge: Option<Edge>)

  /** The entries of one id in `groups_`, `group_revision_` and `group_last_updated_ms_`. */
  datatype Chain = Chain(members: seq<GroupMember>, revision: nat, updated: int)

  /** One published session_timeline line. */
  datatype Revision = Revision(group: nat, revision: nat, final: bool, members: seq<GroupMember>)

  datatype Declines = Declines(size: nat, active: nat, crossMerge: nat)

  datatype Book = Book(chains: map<nat, Chain>, nextGroup: nat, declines: Declines)

  datatype State = State(rings: map<string, seq<RingRecord>>, book: Book, nextRecord: nat,
                         evictedByCapacity: nat, evictedByAge: nat, expired: nat)

  const EMPTY_ENGINE := State(map[], Book(map[], 1, Declines(0, 0, 0)), 1, 0, 0, 0)

  function RingOf(s: State, endpoint: string): seq<RingRecord> {
    if endpoint in s.rings then s.rings[endpoint] else []
  }

  // ---------------------------------------------------------------- a new line

  function StoredRecord(endpoint: string, line: string): Record {
    var record := ParseEvidenceLine(endpoint, line);
    if |record.rawLine| > RAW_LINE_LIMIT then record.(rawLine := record.rawLine[..RAW_LINE_LIMIT]) else record
  }

  predicate IsBehavioural(line: string) { line != "" && !IsOperationalStatusLine(line) }

  function Ingest(s: State, endpoint: string, line: string): State {
    if !IsBehavioural(line) then s
    else
      var ring := RingOf(s, endpoint) + [RingRecord(s.nextRecord, StoredRecord(endpoint, line), 0, [])];
      var full := |ring| > MAX_PER_ENDPOINT;
      s.(rings := s.rings[endpoint := if full then ring[1..] else ring],
         nextRecord := s.nextRecord + 1,
         evictedByCapacity := s.evictedByCapacity + if full then 1 else 0)
  }

  // ---------------------------------------------------------------- ageing

  predicate TooOld(x: RingRecord, now: int) { x.record.time != 0 && now - x.record.time > MAX_AGE_MS }

  function PruneRing(ring: seq<RingRecord>, now: int): seq<RingRecord> {
    if ring != [] && TooOld(ring[0], now) then PruneRing(ring[1..], now) else ring
  }

  /** `PruneStale`, over the endpoints from position `k` on. */
  function PruneFrom(s: State, endpoints: seq<string>, k: nat, now: int): State
    decreases |endpoints| - k
  {
    if k >= |endpoints| then s
    else
      var ring := RingOf(s, endpoints[k]);
      var kept := PruneRing(ring, now);
      PruneFrom(s.(rings := s.rings[endpoints[k] := kept],
                   evictedByAge := if |kept| <= |ring| then s.evictedByAge + (|ring| - |kept|) else s.evictedByAge),
                endpoints, k + 1, now)
  }

  predicate Expired(c: Chain, now: int) { now - c.updated > MAX_AGE_MS }

  function Closing(g: nat, c: Chain): Revision { Revision(g, c.revision, true, c.members) }

  /** `PruneStaleGroups`, over the group ids from position `k` on. */
  function ExpireFrom(s: State, out: seq<Revision>, order: seq<nat>, k: nat, now: int): (State, seq<Revision>)
    decreases |order| - k
  {
    if k >= |order| then (s, out)
    else if order[k] in s.book.chains && Expired(s.book.chains[order[k]], now) then
      ExpireFrom(s.(book := s.book.(chains := s.book.chains - {order[k]}), expired := s.expired + 1),
                 out + [Closing(order[k], s.book.chains[order[k]])], order, k + 1, now)
    else ExpireFrom(s, out, order, k + 1, now)
  }

  // ---------------------------------------------------------------- linking two records

  datatype Link = Link(book: Book, a: RingRecord, b: RingRecord, group: nat)

  function Anchor(x: RingRecord): GroupMember { GroupMember(x.id, x.record, None) }

  function Joined(x: RingRecord, edge: Edge): GroupMember { GroupMember(x.id, x.record, Some(edge)) }

  /** The chain of an id; looking up an id that is not there creates an empty one. */
  function ChainAt(book: Book, g: nat): Chain {
    if g in book.chains then book.chains[g] else Chain([], 0, 0)
  }

  function Extend(book: Book, g: nat, x: RingRecord, edge: Edge, now: int): Book {
    var c := ChainAt(book, g);
    book.(chains := book.chains[g := Chain(c.members + [Joined(x, edge)], c.revision + 1, now)])
  }

  function DeclineSize(book: Book): Book { book.(declines := book.declines.(size := book.declines.size + 1)) }

  /** `AssignOrExtendGroup`; `group` is 0 when no group changed. */
  function AssignOrExtend(book: Book, a: RingRecord, b: RingRecord, edge: Edge, now: int): Link {
    if a.group != 0 && a.group == b.group then Link(book, a, b, 0)
    else if a.group == 0 && b.group == 0 then
      if |book.chains| >= MAX_ACTIVE_GROUPS then
        Link(book.(declines := book.declines.(active := book.declines.active + 1)), a, b, 0)
      else
        var g := book.nextGroup;
        Link(book.(chains := book.chains[g := Chain([Anchor(a), Joined(b, edge)], 1, now)], nextGroup := g + 1),
             a.(group := g), b.(group := g), g)
    else if b.group == 0 then
      if |ChainAt(book, a.group).members| >= MAX_GROUP_SIZE then Link(DeclineSize(book), a, b, 0)
      else Link(Extend(book, a.group, b, edge, now), a, b.(group := a.group), a.group)
    else if a.group == 0 then
      if |ChainAt(book, b.group).members| >= MAX_GROUP_SIZE then Link(DeclineSize(book), a, b, 0)
      else Link(Extend(book, b.group, a, edge, now), a.(group := b.group), b, b.group)
    else Link(book.(declines := book.declines.(crossMerge := book.declines.crossMerge + 1)), a, b, 0)
  }

  // ---------------------------------------------------------------- scanning a pair of rings

  function EdgeOf(a: RingRecord, b: RingRecord): Edge { EvaluateEdge(a.record, b.record, JOIN_WINDOW_MS) }

  /** `b` may become a partner of `a` now. */
  predicate Joinable(a: RingRecord, b: RingRecord) {
    |b.partners| < MAX_JOINS_PER_RECORD && b.id !in a.partners && EdgeOf(a, b).matched
  }

  datatype Scan = Scan(a: seq<RingRecord>, b: seq<RingRecord>, book: Book, joins: nat, out: seq<Revision>)

  function Published(book: Book, g: nat): Revision {
    Revision(g, ChainAt(book, g).revision, false, ChainAt(book, g).members)
  }

  /** The records at `i` and `k` become partners, and their groups grow if they may. */
  function JoinAt(p: Scan, i: nat, k: nat, now: int): (r: Scan)
    requires i < |p.a| && k < |p.b|
    ensures |r.a| == |p.a| && |r.b| == |p.b|
  {
    var a, b := p.a[i].(partners := p.a[i].partners + [p.b[k].id]), p.b[k].(partners := p.b[k].partners + [p.a[i].id]);
    var l := AssignOrExtend(p.book, a, b, EdgeOf(a, b), now);
    Scan(p.a[i := l.a], p.b[k := l.b], l.book,
         if l.group != 0 then p.joins + 1 else p.joins,
         if l.group != 0 then p.out + [Published(l.book, l.group)] else p.out)
  }

  function JoinIfAny(p: Scan, i: nat, k: nat, now: int): (r: Scan)
    requires i < |p.a|
    ensures |r.a| == |p.a| && |r.b| == |p.b|
  {
    if k < |p.b| then JoinAt(p, i, k, now) else p
  }

  predicate Behind(x: RingRecord, low: int) { x.record.time == 0 || x.record.time < low }

  /** The first position from `j` on whose record is not behind `low`. */
  function Slide(ring: seq<RingRecord>, j: nat, low: int): (r: nat)
    decreases |ring| - j
    ensures r >= j
  {
    if j < |ring| && Behind(ring[j], low) then Slide(ring, j + 1, low) else j
  }

  /** The first joinable record from `k` on, stopping at the first one later than `high`; |ring| if there is none. */
  function FirstInWindow(a: RingRecord, ring: seq<RingRecord>, k: nat, high: int): nat
    decreases |ring| - k
  {
    if k >= |ring| || ring[k].record.time > high then |ring|
    else if Joinable(a, ring[k]) then k
    else FirstInWindow(a, ring, k + 1, high)
  }

  predicate Scannable(x: RingRecord) { x.record.time != 0 && |x.partners| < MAX_JOINS_PER_RECORD }

  /** The source's scan of two rings: `j` only moves forward, `w` is the prefilter. */
  function TwoPointerScan(p: Scan, i: nat, j: nat, w: int, now: int): Scan
    decreases |p.a| - i
  {
    if i >= |p.a| || p.joins >= MAX_JOINS_PER_CYCLE then p
    else if !Scannable(p.a[i]) then TwoPointerScan(p, i + 1, j, w, now)
    else
      var time := p.a[i].record.time;
      var j' := Slide(p.b, j, time - w);
      TwoPointerScan(JoinIfAny(p, i, FirstInWindow(p.a[i], p.b, j', time + w), now), i + 1, j', w, now)
  }

  /** The first joinable record of the whole ring; |ring| if there is none. */
  function FirstJoinable(a: RingRecord, ring: seq<RingRecord>, k: nat): nat
    decreases |ring| - k
  {
    if k >= |ring| then |ring| else if Joinable(a, ring[k]) then k else FirstJoinable(a, ring, k + 1)
  }

  /** The reference scan: every record tries the whole other ring. */
  function NaiveScan(p: Scan, i: nat, now: int): Scan
    decreases |p.a| - i
  {
    if i >= |p.a| || p.joins >= MAX_JOINS_PER_CYCLE then p
    else if !Scannable(p.a[i]) then NaiveScan(p, i + 1, now)
    else NaiveScan(JoinIfAny(p, i, FirstJoinable(p.a[i], p.b, 0), now), i + 1, now)
  }

  // ---------------------------------------------------------------- one cycle

  datatype Mode = TwoPointer | Naive

  datatype Progress = Progress(s: State, joins: nat, out: seq<Revision>)

  function Prefilter(e: string, f: string): int {
    if e == "port" || f == "port" then PORT_PREFILTER_MS else JOIN_WINDOW_MS
  }

  function ScanOf(c: Progress, e: string, f: string): Scan {
    Scan(RingOf(c.s, e), RingOf(c.s, f), c.s.book, c.joins, c.out)
  }

  function Scanned(mode: Mode, p: Scan, w: int, now: int): Scan {
    match mode
    case TwoPointer => TwoPointerScan(p, 0, 0, w, now)
    case Naive => NaiveScan(p, 0, now)
  }

  function Absorb(c: Progress, e: string, f: string, p: Scan): Progress {
    Progress(c.s.(rings := c.s.rings[e := p.a][f := p.b], book := p.book), p.joins, p.out)
  }

  function ScanPair(mode: Mode, c: Progress, e: string, f: string, now: int): Progress {
    Absorb(c, e, f, Scanned(mode, ScanOf(c, e, f), Prefilter(e, f), now))
  }

  /** The double loop over endpoint pairs, from the pair (`i`, `j`) on. */
  function ScanFrom(mode: Mode, c: Progress, endpoints: seq<string>, i: nat, j: nat, now: int): Progress
    requires i < j
    decreases |endpoints| - i, |endpoints| - j
  {
    if i >= |endpoints| || c.joins >= MAX_JOINS_PER_CYCLE then c
    else if j >= |endpoints| then ScanFrom(mode, c, endpoints, i + 1, i + 2, now)
    else ScanFrom(mode, ScanPair(mode, c, endpoints[i], endpoints[j], now), endpoints, i, j + 1, now)
  }

  /** `order` and `endpoints` are the orders in which the two hash maps are iterated. */
  ghost predicate Enumerates<T(!new)>(order: seq<T>, keys: set<T>) {
    && (forall i, j :: 0 <= i < j < |order| ==> order[i] != order[j])
    && (forall x :: x in order <==> x in keys)
  }

  function Aged(s: State, endpoints: seq<string>, order: seq<nat>, now: int): (State, seq<Revision>) {
    ExpireFrom(PruneFrom(s, endpoints, 0, now), [], order, 0, now)
  }

  /** `TryCorrelate`. */
  function Cycle(mode: Mode, s: State, endpoints: seq<string>, order: seq<nat>, now: int): Progress {
    var aged := Aged(s, endpoints, order, now);
    ScanFrom(mode, Progress(aged.0, 0, aged.1), endpoints, 0, 1, now)
  }
}
