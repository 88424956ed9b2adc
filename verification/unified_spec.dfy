/** CORRELATOR/unified_stream_engine.cpp as a function of its state: what one record, one flush
    and one drain do. The engine class is proved equal to these functions. */
module UnifiedSpec {
  import opened Text
  import opened JsonFields
  import opened JsonNumbers
  import opened Hashing
  import opened Evidence
  import opened EvidenceGraph

  const CORRELATION_WINDOW_MS: int := 2000
  const REPEAT_WINDOW_MS: int := 5000
  const SETTLE_DELAY_MS: int := 3000
  const MAX_PENDING_LIFETIME_MS: int := 30000
  const MAX_PENDING_GROUPS: nat := 512
  const MAX_MEMBERS: nat := 16
  const MAX_IDENTITIES: nat := 8192
  const MAX_RAW_LINE: nat := 4096

  datatype Member = Member(first: Record, last: Record, fingerprint: string, repeatCount: nat,
                           firstSeen: int, lastSeen: int, incoming: Edge)

  datatype Group = Group(id: nat, members: seq<Member>, connections: seq<Connection>, recordsObserved: nat,
                         firstSeen: int, lastSeen: int, createdWall: int, lastActivity: int,
                         operationalOnly: bool)

  datatype Candidate = Candidate(groupId: nat, memberIndex: nat, edge: Edge)
  datatype Bridge = Bridge(from: nat, edge: Edge)

  datatype Counters = Counters(accepted: nat, represented: nat, emitted: nat, connected: nat, single: nat,
                               duplicates: nat, repeats: nat, parseFailures: nat, capacityFlushes: nat,
                               connectionLimit: nat)

  /** `groups` holds the values of the id-ordered map `groups_`. */
  datatype State = State(groups: seq<Group>, forced: seq<Group>, recent: set<string>, order: seq<string>,
                         nextId: nat, n: Counters)

  const EMPTY := State([], [], {}, [], 1, Counters(0, 0, 0, 0, 0, 0, 0, 0, 0, 0))

  /** A just started engine. */
  predicate IsFresh(s: State) {
    && s.groups == [] && s.forced == [] && s.recent == {} && s.order == [] && s.nextId == 1
    && s.n.accepted == s.n.represented == s.n.emitted == s.n.connected == s.n.single == 0
    && s.n.duplicates == s.n.repeats == s.n.parseFailures == s.n.capacityFlushes == s.n.connectionLimit == 0
  }

  // ---------------------------------------------------------------- identities

  function ExactIdentity(r: Record): string {
    if r.nativeSessionId != "" && r.nativeRecordId != "" then
      r.endpoint + "|native|" + r.nativeSessionId + "|" + r.nativeRecordId
    else if r.nativeContentHash != "" then r.endpoint + "|content|" + r.nativeContentHash
    else r.endpoint + "|raw|" + HexHash(r.rawLine)
  }

  const STRING_FIELDS := [
    "process_name", "image", "exe", "action", "event_type", "local_ip", "remote_ip", "src_ip", "dst_ip",
    "protocol", "direction", "module_path", "mount_point", "device_id", "command_line"]
  const NUMBER_FIELDS := [
    "local_port", "remote_port", "src_port", "dst_port", "transport_protocol", "creator_pid", "target_pid"]

  function StringFieldsText(line: string, keys: seq<string>): string {
    if keys == [] then ""
    else
      (match ExtractString(line, keys[0])
       case Some(v) => "|" + keys[0] + "=" + v
       case None => "") + StringFieldsText(line, keys[1..])
  }

  function NumberFieldsText(line: string, keys: seq<string>): string {
    if keys == [] then ""
    else
      (match ExtractNumber(line, keys[0])
       case Some(v) => "|" + keys[0] + "=" + Printed(v)
       case None => "") + NumberFieldsText(line, keys[1..])
  }

  function SemanticKey(r: Record): string {
    r.endpoint + "|" + r.recordType + "|pid=" + Printed(r.pid) + "|ppid=" + Printed(r.parentPid) + "|path=" + r.path
    + StringFieldsText(r.rawLine, STRING_FIELDS) + NumberFieldsText(r.rawLine, NUMBER_FIELDS)
  }

  function SemanticFingerprint(r: Record, operational: bool): string {
    if operational then ExactIdentity(r) else HexHash(SemanticKey(r))
  }

  // ---------------------------------------------------------------- one arriving line

  /** A parsed line: `eventMs` is the record's own time, or the observation time when it has none. */
  datatype Arrival = Arrival(record: Record, operational: bool, fingerprint: string, eventMs: int, wall: int)

  predicate Blank(c: char) { c in " \t\r\n" }

  function FirstNonBlank(s: string): Option<char> {
    if s == "" then None else if !Blank(s[0]) then Some(s[0]) else FirstNonBlank(s[1..])
  }

  function LastNonBlank(s: string): Option<char> {
    if s == "" then None
    else if !Blank(s[|s| - 1]) then Some(s[|s| - 1])
    else LastNonBlank(s[..|s| - 1])
  }

  predicate LooksLikeObject(line: string) {
    FirstNonBlank(line) == Some('{') && LastNonBlank(line) == Some('}')
  }

  /** The record kept for a line: an unknown kind is named, the raw copy is bounded. */
  function KeptRecord(endpoint: string, line: string): Record {
    var r := ParseEvidenceLine(endpoint, line);
    r.(recordType := if r.recordType == "" then "unknown" else r.recordType,
       rawLine := if |r.rawLine| > MAX_RAW_LINE then r.rawLine[..MAX_RAW_LINE] else r.rawLine)
  }

  function Observe(endpoint: string, line: string, wall: int): Arrival {
    var r := KeptRecord(endpoint, line);
    var operational := IsOperationalStatusLine(line);
    Arrival(r, operational, SemanticFingerprint(r, operational), if r.time > 0 then r.time else wall, wall)
  }

  // ---------------------------------------------------------------- the dedup window

  function Trim(recent: set<string>, order: seq<string>): (set<string>, seq<string>)
    decreases |order|
  {
    if |order| > MAX_IDENTITIES then Trim(recent - {order[0]}, order[1..]) else (recent, order)
  }

  function Remember(s: State, identity: string): State {
    var kept := Trim(s.recent + {identity}, s.order + [identity]);
    s.(recent := kept.0, order := kept.1)
  }

  // ---------------------------------------------------------------- compaction of repeats

  predicate Repeats(m: Member, a: Arrival) {
    && m.first.endpoint == a.record.endpoint && m.fingerprint == a.fingerprint
    && Abs(a.eventMs - m.lastSeen) <= REPEAT_WINDOW_MS
  }

  /** The first member from index i on that `a` repeats. */
  function FindMember(members: seq<Member>, a: Arrival, i: nat): (r: Option<nat>)
    requires i <= |members|
    ensures r.Some? ==> i <= r.value < |members| && Repeats(members[r.value], a)
    ensures forall j :: i <= j < (if r.Some? then r.value else |members|) ==> !Repeats(members[j], a)
    decreases |members| - i
  {
    if i == |members| then None
    else if Repeats(members[i], a) then Some(i)
    else FindMember(members, a, i + 1)
  }

  /** The first group from index g on, in id order, with a member that `a` repeats. */
  function FindRepeat(groups: seq<Group>, a: Arrival, g: nat): (r: Option<(nat, nat)>)
    requires g <= |groups|
    ensures r.Some? ==> g <= r.value.0 < |groups| && r.value.1 < |groups[r.value.0].members|
                        && Repeats(groups[r.value.0].members[r.value.1], a)
    decreases |groups| - g
  {
    if g == |groups| then None
    else
      match FindMember(groups[g].members, a, 0)
      case Some(m) => Some((g, m))
      case None => FindRepeat(groups, a, g + 1)
  }

  function Max(x: int, y: int): int { if x < y then y else x }
  function Min(x: int, y: int): int { if y < x then y else x }

  function Compacted(g: Group, m: nat, a: Arrival): Group
    requires m < |g.members|
  {
    var was := g.members[m];
    g.(members := g.members[m := was.(last := a.record, lastSeen := a.eventMs, repeatCount := was.repeatCount + 1)],
       recordsObserved := g.recordsObserved + 1,
       lastSeen := Max(g.lastSeen, a.eventMs),
       lastActivity := a.wall)
  }

  function Repeat(s: State, g: nat, m: nat, a: Arrival): State
    requires g < |s.groups| && m < |s.groups[g].members|
  {
    s.(groups := s.groups[g := Compacted(s.groups[g], m, a)], n := s.n.(repeats := s.n.repeats + 1))
  }

  // ---------------------------------------------------------------- candidate joins

  /** `IsUsableConnection`: a match that is evidence. Shared system process ids are not, on their own. */
  predicate Usable(a: Record, b: Record, e: Edge) {
    && e.matched && a.endpoint != b.endpoint
    && if e.reason == "same_pid" && (a.pid <= 4 || b.pid <= 4) then a.path != "" && a.path == b.path
       else !(e.reason == "sibling_pid" && (a.parentPid <= 4 || b.parentPid <= 4))
  }

  function EdgeTo(m: Member, r: Record): Edge { EvaluateEdge(m.last, r, CORRELATION_WINDOW_MS) }

  const NO_CANDIDATE := Candidate(0, 0, NO_EDGE)

  /** The best usable match among the members from index i on, given the best so far; the earlier one wins a tie. */
  function BestFrom(g: Group, r: Record, i: nat, best: Candidate): Candidate
    requires i <= |g.members|
    decreases |g.members| - i
  {
    if i == |g.members| then best
    else
      var e := EdgeTo(g.members[i], r);
      if Usable(g.members[i].last, r, e) && (best.groupId == 0 || e.score > best.edge.score)
      then BestFrom(g, r, i + 1, Candidate(g.id, i, e))
      else BestFrom(g, r, i + 1, best)
  }

  function Candidates(groups: seq<Group>, r: Record): seq<Candidate> {
    if groups == [] then []
    else
      var before := Candidates(groups[..|groups| - 1], r);
      var g := groups[|groups| - 1];
      if g.operationalOnly then before
      else
        var best := BestFrom(g, r, 0, NO_CANDIDATE);
        if best.groupId != 0 then before + [best] else before
  }

  /** What `std::sort` with the score comparison promises: some arrangement of the same candidates, best first.
      The order among equal scores is left open. */
  predicate SortedByScore(cs: seq<Candidate>) {
    forall i, j :: 0 <= i < j < |cs| ==> cs[i].edge.score >= cs[j].edge.score
  }

  ghost predicate IsSorter(sorter: seq<Candidate> -> seq<Candidate>) {
    forall cs :: SortedByScore(sorter(cs)) && multiset(sorter(cs)) == multiset(cs)
  }

  // ---------------------------------------------------------------- opening, flushing, merging, extending

  function NewMember(a: Arrival, incoming: Edge): Member {
    Member(a.record, a.record, a.fingerprint, 1, a.eventMs, a.eventMs, incoming)
  }

  function NewGroup(id: nat, a: Arrival): Group {
    Group(id, [NewMember(a, NO_EDGE)], [], 1, a.eventMs, a.eventMs, a.wall, a.wall, a.operational)
  }

  function Append(s: State, a: Arrival): State {
    s.(groups := s.groups + [NewGroup(s.nextId, a)], nextId := s.nextId + 1)
  }

  function Without<T>(xs: seq<T>, i: nat): seq<T>
    requires i < |xs|
  {
    xs[..i] + xs[i + 1..]
  }

  function CountEmitted(n: Counters, g: Group): Counters {
    var m := n.(emitted := n.emitted + 1);
    if g.connections == [] then m.(single := m.single + 1) else m.(connected := m.connected + 1)
  }

  /** A pending group forced out before it settled. */
  function ForceOut(s: State, i: nat): State
    requires i < |s.groups|
  {
    var n := CountEmitted(s.n, s.groups[i]);
    s.(groups := Without(s.groups, i), forced := s.forced + [s.groups[i]],
       n := n.(capacityFlushes := n.capacityFlushes + 1))
  }

  /** The least recently active group, the lowest id among equals. */
  function OldestIndex(groups: seq<Group>): (i: nat)
    requires groups != []
    ensures i < |groups|
    ensures forall j :: 0 <= j < |groups| ==> groups[i].lastActivity <= groups[j].lastActivity
    ensures forall j :: 0 <= j < i ==> groups[i].lastActivity < groups[j].lastActivity
  {
    if |groups| == 1 then 0
    else
      var before := OldestIndex(groups[..|groups| - 1]);
      if groups[|groups| - 1].lastActivity < groups[before].lastActivity then |groups| - 1 else before
  }

  function FlushOldestForCapacity(s: State): State {
    if s.groups == [] then s else ForceOut(s, OldestIndex(s.groups))
  }

  function Open(s: State, a: Arrival): State {
    Append(if |s.groups| >= MAX_PENDING_GROUPS then FlushOldestForCapacity(s) else s, a)
  }

  function IndexOf(groups: seq<Group>, id: nat): (r: Option<nat>)
    ensures r.Some? ==> r.value < |groups| && groups[r.value].id == id
    ensures r.None? ==> forall i :: 0 <= i < |groups| ==> groups[i].id != id
  {
    if groups == [] then None
    else if groups[|groups| - 1].id == id then Some(|groups| - 1)
    else IndexOf(groups[..|groups| - 1], id)
  }

  function Shifted(cs: seq<Connection>, offset: nat): (r: seq<Connection>)
    ensures |r| == |cs|
    ensures forall i :: 0 <= i < |cs| ==> r[i] == Connection(cs[i].from + offset, cs[i].to + offset, cs[i].edge)
  {
    if cs == [] then []
    else
      var c := cs[|cs| - 1];
      Shifted(cs[..|cs| - 1], offset) + [Connection(c.from + offset, c.to + offset, c.edge)]
  }

  /** `other` absorbed into `target`: its members follow, its connections are re-indexed. */
  function Absorbed(target: Group, other: Group): Group {
    target.(members := target.members + other.members,
            connections := target.connections + Shifted(other.connections, |target.members|),
            recordsObserved := target.recordsObserved + other.recordsObserved,
            firstSeen := Min(target.firstSeen, other.firstSeen),
            lastSeen := Max(target.lastSeen, other.lastSeen))
  }

  datatype Merging = Merging(groups: seq<Group>, bridges: seq<Bridge>, limited: nat)

  /** One candidate after the first: its group is absorbed into the target unless the result would be too large. */
  function MergeOne(m: Merging, targetId: nat, c: Candidate): Merging {
    match (IndexOf(m.groups, targetId), IndexOf(m.groups, c.groupId))
    case (Some(t), Some(o)) =>
      if c.groupId == targetId then m
      else if |m.groups[t].members| + |m.groups[o].members| + 1 > MAX_MEMBERS then m.(limited := m.limited + 1)
      else
        m.(groups := Without(m.groups[t := Absorbed(m.groups[t], m.groups[o])], o),
           bridges := m.bridges + [Bridge(|m.groups[t].members| + c.memberIndex, c.edge)])
    case _ => m
  }

  function MergeAll(m: Merging, targetId: nat, cs: seq<Candidate>): Merging {
    if cs == [] then m else MergeOne(MergeAll(m, targetId, cs[..|cs| - 1]), targetId, cs[|cs| - 1])
  }

  function BridgesTo(bridges: seq<Bridge>, to: nat): (r: seq<Connection>)
    ensures |r| == |bridges|
    ensures forall i :: 0 <= i < |bridges| ==> r[i] == Connection(bridges[i].from, to, bridges[i].edge)
  {
    if bridges == [] then []
    else
      var b := bridges[|bridges| - 1];
      BridgesTo(bridges[..|bridges| - 1], to) + [Connection(b.from, to, b.edge)]
  }

  /** The new record joins the merged group, bridged to every story it matched. */
  function Extended(g: Group, a: Arrival, bridges: seq<Bridge>, incoming: Edge): Group {
    g.(members := g.members + [NewMember(a, incoming)],
       connections := g.connections + BridgesTo(bridges, |g.members|),
       recordsObserved := g.recordsObserved + 1,
       firstSeen := Min(g.firstSeen, a.eventMs),
       lastSeen := Max(g.lastSeen, a.eventMs),
       lastActivity := a.wall,
       operationalOnly := false)
  }

  function StartMerge(s: State, c: Candidate): Merging {
    Merging(s.groups, [Bridge(c.memberIndex, c.edge)], s.n.connectionLimit)
  }

  /** Joining the record to its sorted candidates. */
  function JoinStories(s: State, a: Arrival, cs: seq<Candidate>): State
    requires cs != []
  {
    if IndexOf(s.groups, cs[0].groupId).None? then s else
    var m := MergeAll(StartMerge(s, cs[0]), cs[0].groupId, cs[1..]);
    var s' := s.(groups := m.groups, n := s.n.(connectionLimit := m.limited));
    match IndexOf(m.groups, cs[0].groupId)
    case None => s
    case Some(t) =>
      if |m.groups[t].members| >= MAX_MEMBERS then Append(ForceOut(s', t), a)
      else s'.(groups := m.groups[t := Extended(m.groups[t], a, m.bridges, cs[0].edge)])
  }

  /** Placing an accepted record: into the member it repeats, into the stories it matches, or into a new group. */
  function Place(sorter: seq<Candidate> -> seq<Candidate>, s: State, a: Arrival): State {
    var repeat: Option<(nat, nat)> := if a.operational then None else FindRepeat(s.groups, a, 0);
    match repeat
    case Some(at) => Repeat(s, at.0, at.1, a)
    case None =>
      var cs := sorter(if a.operational then [] else Candidates(s.groups, a.record));
      if cs == [] then Open(s, a) else JoinStories(s, a, cs)
  }

  function Accept(sorter: seq<Candidate> -> seq<Candidate>, s: State, a: Arrival): (State, bool) {
    if ExactIdentity(a.record) in s.recent then (s.(n := s.n.(duplicates := s.n.duplicates + 1)), false)
    else
      var s1 := Remember(s, ExactIdentity(a.record));
      var s2 := s1.(n := s1.n.(accepted := s1.n.accepted + 1, represented := s1.n.represented + 1));
      (Place(sorter, s2, a), true)
  }

  /** `Ingest`: the new state and whether the line was accepted. `wall` is the observation time. */
  function Ingest(sorter: seq<Candidate> -> seq<Candidate>, s: State, endpoint: string, line: string, wall: int)
    : (State, bool)
  {
    if line == "" then (s, false)
    else if !LooksLikeObject(line) then (s.(n := s.n.(parseFailures := s.n.parseFailures + 1)), false)
    else Accept(sorter, s, Observe(endpoint, line, wall))
  }

  // ---------------------------------------------------------------- draining

  predicate Due(g: Group, now: int, force: bool) {
    force || now - g.lastActivity >= SETTLE_DELAY_MS || now - g.createdWall >= MAX_PENDING_LIFETIME_MS
  }

  function DueOf(groups: seq<Group>, now: int, force: bool): seq<Group> {
    if groups == [] then []
    else
      var before := DueOf(groups[..|groups| - 1], now, force);
      if Due(groups[|groups| - 1], now, force) then before + [groups[|groups| - 1]] else before
  }

  function KeptOf(groups: seq<Group>, now: int, force: bool): seq<Group> {
    if groups == [] then []
    else
      var before := KeptOf(groups[..|groups| - 1], now, force);
      if Due(groups[|groups| - 1], now, force) then before else before + [groups[|groups| - 1]]
  }

  function CountAll(n: Counters, gs: seq<Group>): Counters {
    if gs == [] then n else CountEmitted(CountAll(n, gs[..|gs| - 1]), gs[|gs| - 1])
  }

  /** `DrainReady`: everything forced out earlier, then every due group in id order. */
  function Drain(s: State, now: int, force: bool): (State, seq<Group>) {
    var due := DueOf(s.groups, now, force);
    (s.(groups := KeptOf(s.groups, now, force), forced := [], n := CountAll(s.n, due)), s.forced + due)
  }
}
