/** A run on which "final" is not final: a line without a time keeps an old record in its ring, and a later cycle
    publishes a closed group again. */
module CorrelationReturn {
  import opened Text
  import opened JsonFields
  import opened JsonPrinter
  import opened JsonNumbers
  import opened Evidence
  import opened CorrelationSpec
  import opened CorrelationRuns
  import opened CorrelationOrder

  // ---------------------------------------------------------------- the lines

  const EARLY: int := 1000
  const LATER: int := 1000 + MAX_AGE_MS + 1

  function Number(key: string, n: nat): Field { Bare(key, Printed(n)) }

  /** No time; a process id at one second past the epoch; a two-hour session that ends half an hour later. */
  const QUIET_FIELDS: seq<Field> := [Number("pid", 9)]
  const BUSY_FIELDS: seq<Field> := [Number("t_unix_ms", EARLY), Number("pid", 7)]
  const STICK_FIELDS: seq<Field> :=
    [Quoted("mount_point", "E:"), Number("duration_seconds", 7200), Number("t_unix_ms", LATER)]

  const QUIET: string := ObjectText(QUIET_FIELDS)
  const BUSY: string := ObjectText(BUSY_FIELDS)
  const STICK: string := ObjectText(STICK_FIELDS)

  lemma Identifiers()
    ensures Identifier("pid") && Identifier("t_unix_ms") && Identifier("mount_point") && Identifier("duration_seconds")
    ensures Identifier("parent_pid") && Identifier("type") && Identifier("record_type")
  {
  }

  lemma NumberWellFormed(key: string, n: nat)
    requires Identifier(key)
    ensures WellFormed(Number(key, n))
  {
    DecimalDenotes(n);
    assert forall i :: 0 <= i < |Decimal(n)| ==> Decimal(n)[i] != '"';
  }

  lemma FieldsWellFormed()
    ensures forall f <- QUIET_FIELDS :: WellFormed(f)
    ensures forall f <- BUSY_FIELDS :: WellFormed(f)
    ensures forall f <- STICK_FIELDS :: WellFormed(f)
  {
    hide WellFormed, Number;
    Identifiers();
    NumberWellFormed("pid", 9);
    NumberWellFormed("pid", 7);
    NumberWellFormed("t_unix_ms", EARLY);
    NumberWellFormed("t_unix_ms", LATER);
    NumberWellFormed("duration_seconds", 7200);
    MountWellFormed();
  }

  lemma MountWellFormed()
    ensures WellFormed(Quoted("mount_point", "E:")) && QuotesEscaped("E:") && ReadsAs("E:", "E:")
  {
    hide ReadsAs, QuotesEscaped;
    Identifiers();
    PlainReadsBack("E:");
  }

  lemma SmallNumber(n: nat)
    requires n < 10_000_000
    ensures ParseNumber(Printed(n)) == Some(n)
  {
    PrintedReadsBack(n);
    Power10Mono(7, 18);
    assert Power10(1) == 10 && Power10(2) == 100 && Power10(3) == 1000 && Power10(4) == 10_000;
    assert Power10(5) == 100_000 && Power10(6) == 1_000_000 && Power10(7) == 10_000_000;
  }

  // ---------------------------------------------------------------- reading a flat object

  /** What a number request finds among the fields. */
  lemma ReadsNumber(fs: seq<Field>, key: string)
    requires Identifier(key) && forall f <- fs :: WellFormed(f)
    ensures ExtractNumber(ObjectText(fs), key) == NumberIn(FirstNamed(fs, key))
  {
    NumberFromObject(fs, key);
  }

  lemma ReadsNothing(fs: seq<Field>, key: string)
    requires Identifier(key) && (forall f <- fs :: WellFormed(f)) && FirstQuoted(fs, key) == None
    ensures ExtractString(ObjectText(fs), key) == None
  {
    ExtractFromObject(fs, key, "");
  }

  lemma KeysDiffer()
    ensures "pid" != "t_unix_ms" && "pid" != "parent_pid" && "t_unix_ms" != "parent_pid"
    ensures "mount_point" != "duration_seconds" && "duration_seconds" != "t_unix_ms" && "mount_point" != "t_unix_ms"
    ensures "mount_point" != "type" && "mount_point" != "record_type"
  {
    assert "mount_point"[0] == 'm' && "record_type"[0] == 'r';
  }

  lemma EndpointsDiffer()
    ensures "application" != "port" && "process" != "port" && "process" != "application"
  {
    assert "application"[0] == 'a' && "port"[0] == 'p' && "process"[1] == 'r' && "port"[1] == 'o'
           && "process"[0] == 'p';
  }

  /** The fields of a stored record on which matching depends. */
  lemma StoredFields(endpoint: string, line: string)
    ensures var r := StoredRecord(endpoint, line);
            && r.endpoint == endpoint && r.time == NumberOr(ExtractNumber(line, "t_unix_ms"), 0)
            && r.pid == NumberOr(ExtractNumber(line, "pid"), 0) % TWO_32
            && r.parentPid == NumberOr(ExtractNumber(line, "parent_pid"), 0) % TWO_32
            && r.mountPoint == (if endpoint == "port" then TextOr(ExtractString(line, "mount_point"), "") else "")
            && r.durationSeconds
               == (if endpoint == "port" then NumberOr(ExtractNumber(line, "duration_seconds"), 0) else 0)
  {
    hide ExtractNumber, ExtractString, Printed, NormalizeRecordType, BridgePath;
  }

  lemma NotOperational(fs: seq<Field>)
    requires (forall f <- fs :: WellFormed(f)) && FirstQuoted(fs, "type") == None
             && FirstQuoted(fs, "record_type") == None
    ensures IsBehavioural(ObjectText(fs))
  {
    hide ExtractString, FieldsText, WellFormed;
    Identifiers();
    ReadsNothing(fs, "type");
    ReadsNothing(fs, "record_type");
    assert ObjectText(fs)[0] == '{';
  }

  // ---------------------------------------------------------------- the records

  const R1: Record := StoredRecord("application", QUIET)
  const R2: Record := StoredRecord("application", BUSY)
  const R3: Record := StoredRecord("process", BUSY)
  const R4: Record := StoredRecord("port", STICK)

  lemma QuietFields()
    ensures FirstNamed(QUIET_FIELDS, "t_unix_ms") == None
    ensures FirstQuoted(QUIET_FIELDS, "type") == None && FirstQuoted(QUIET_FIELDS, "record_type") == None
  {
    hide Printed;
    KeysDiffer();
    assert QUIET_FIELDS[1..] == [];
  }

  lemma BusyFields()
    ensures FirstNamed(BUSY_FIELDS, "t_unix_ms") == Some(Number("t_unix_ms", EARLY))
    ensures FirstNamed(BUSY_FIELDS, "pid") == Some(Number("pid", 7))
    ensures FirstNamed(BUSY_FIELDS, "parent_pid") == None
    ensures FirstQuoted(BUSY_FIELDS, "type") == None && FirstQuoted(BUSY_FIELDS, "record_type") == None
  {
    hide Printed;
    KeysDiffer();
    var rest := BUSY_FIELDS[1..];
    assert rest == [Number("pid", 7)] && rest[1..] == [];
    assert FirstNamed([], "parent_pid") == None && FirstQuoted([], "type") == FirstQuoted([], "record_type") == None;
    assert FirstNamed(rest, "parent_pid") == None
           && FirstQuoted(rest, "type") == FirstQuoted(rest, "record_type") == None;
  }

  lemma StickFields()
    ensures FirstNamed(STICK_FIELDS, "t_unix_ms") == Some(Number("t_unix_ms", LATER))
    ensures FirstNamed(STICK_FIELDS, "duration_seconds") == Some(Number("duration_seconds", 7200))
    ensures FirstQuoted(STICK_FIELDS, "mount_point") == Some("E:")
    ensures FirstQuoted(STICK_FIELDS, "type") == None && FirstQuoted(STICK_FIELDS, "record_type") == None
  {
    hide Printed;
    KeysDiffer();
    var rest := STICK_FIELDS[1..];
    assert rest == [Number("duration_seconds", 7200), Number("t_unix_ms", LATER)];
    assert rest[1..] == [Number("t_unix_ms", LATER)] && rest[1..][1..] == [];
    assert FirstQuoted([], "type") == FirstQuoted([], "record_type") == None;
    assert FirstQuoted(rest[1..], "type") == FirstQuoted(rest[1..], "record_type") == None;
    assert FirstQuoted(rest, "type") == FirstQuoted(rest, "record_type") == None;
    assert FirstNamed(rest, "t_unix_ms") == Some(Number("t_unix_ms", LATER));
  }

  lemma Times()
    ensures R1.time == 0 && R1.endpoint == "application"
    ensures IsBehavioural(QUIET)
  {
    hide ExtractNumber, ExtractString, StoredRecord, WellFormed, FirstNamed, FirstQuoted, ObjectText, QUIET_FIELDS,
         BUSY_FIELDS, STICK_FIELDS;
    Identifiers();
    FieldsWellFormed();
    QuietFields();
    ReadsNumber(QUIET_FIELDS, "t_unix_ms");
    StoredFields("application", QUIET);
    NotOperational(QUIET_FIELDS);
  }

  lemma BusyRecord(endpoint: string)
    requires endpoint != "port"
    ensures var r := StoredRecord(endpoint, BUSY);
            r.time == EARLY && r.pid == 7 && r.parentPid == 0 && r.endpoint == endpoint && r.mountPoint == ""
              && r.durationSeconds == 0
    ensures IsBehavioural(BUSY)
  {
    hide ExtractNumber, ExtractString, StoredRecord, WellFormed, FirstNamed, FirstQuoted, ObjectText, QUIET_FIELDS,
         BUSY_FIELDS, STICK_FIELDS, ParseNumber;
    Identifiers();
    FieldsWellFormed();
    BusyFields();
    ReadsNumber(BUSY_FIELDS, "t_unix_ms");
    ReadsNumber(BUSY_FIELDS, "pid");
    ReadsNumber(BUSY_FIELDS, "parent_pid");
    SmallNumber(EARLY);
    SmallNumber(7);
    StoredFields(endpoint, BUSY);
    NotOperational(BUSY_FIELDS);
  }

  lemma StickRecord()
    ensures R4.time == LATER && R4.endpoint == "port" && R4.mountPoint == "E:" && R4.durationSeconds == 7200
    ensures IsBehavioural(STICK)
  {
    hide ExtractNumber, ExtractString, StoredRecord, WellFormed, FirstNamed, FirstQuoted, ObjectText, QUIET_FIELDS,
         BUSY_FIELDS, STICK_FIELDS, ParseNumber, ReadsAs;
    Identifiers();
    FieldsWellFormed();
    StickFields();
    ReadsNumber(STICK_FIELDS, "t_unix_ms");
    ReadsNumber(STICK_FIELDS, "duration_seconds");
    MountWellFormed();
    ExtractFromObject(STICK_FIELDS, "mount_point", "E:");
    SmallNumber(LATER);
    SmallNumber(7200);
    StoredFields("port", STICK);
    NotOperational(STICK_FIELDS);
  }

  /** All that the run below depends on. */
  lemma Records()
    ensures R1.time == 0 && R1.endpoint == "application"
    ensures R2.time == EARLY && R2.pid == 7 && R2.endpoint == "application"
    ensures R3.time == EARLY && R3.pid == 7 && R3.endpoint == "process"
    ensures R4.time == LATER && R4.endpoint == "port" && R4.mountPoint == "E:" && R4.durationSeconds == 7200
    ensures IsBehavioural(QUIET) && IsBehavioural(BUSY) && IsBehavioural(STICK)
  {
    hide StoredRecord, IsBehavioural, QUIET, BUSY, STICK;
    EndpointsDiffer();
    Times();
    BusyRecord("application");
    BusyRecord("process");
    StickRecord();
  }

  // ---------------------------------------------------------------- the states

  const X1: RingRecord := RingRecord(1, R1, 0, [])
  const X2: RingRecord := RingRecord(2, R2, 0, [])
  const X3: RingRecord := RingRecord(3, R3, 0, [])
  const X4: RingRecord := RingRecord(4, R4, 0, [])
  const Y2: RingRecord := RingRecord(2, R2, 1, [3])
  const Y3: RingRecord := RingRecord(3, R3, 1, [2])
  const PAIR: Chain := Chain([Anchor(X2), Joined(X3, EdgeOf(X2, X3))], 1, EARLY)
  const NONE_DECLINED: Declines := Declines(0, 0, 0)

  const ONE: State := State(map["application" := [X1]], Book(map[], 1, NONE_DECLINED), 2, 0, 0, 0)
  const TWO: State := State(map["application" := [X1, X2]], Book(map[], 1, NONE_DECLINED), 3, 0, 0, 0)
  const THREE: State :=
    State(map["application" := [X1, X2], "process" := [X3]], Book(map[], 1, NONE_DECLINED), 4, 0, 0, 0)
  const LINKED: State :=
    State(map["application" := [X1, Y2], "process" := [Y3]], Book(map[1 := PAIR], 2, NONE_DECLINED), 4, 0, 0, 0)
  const WAITING: State :=
    State(map["application" := [X1, Y2], "process" := [Y3], "port" := [X4]],
          Book(map[1 := PAIR], 2, NONE_DECLINED), 5, 0, 0, 0)
  /** After ageing: the partner is gone, the group is closed, the held-back record still refers to it. */
  const AGED: State :=
    State(map["application" := [X1, Y2], "process" := [], "port" := [X4]], Book(map[], 2, NONE_DECLINED), 5, 0, 1, 1)

  const OPENED: Revision := Revision(1, 1, false, PAIR.members)

  lemma IngestOne(s: State, endpoint: string, line: string)
    requires IsBehavioural(line) && |RingOf(s, endpoint)| < MAX_PER_ENDPOINT
    ensures Ingest(s, endpoint, line)
         == s.(rings := s.rings[endpoint :=
                   RingOf(s, endpoint) + [RingRecord(s.nextRecord, StoredRecord(endpoint, line), 0, [])]],
               nextRecord := s.nextRecord + 1)
  {
    hide StoredRecord, IsBehavioural;
  }

  lemma Feeds()
    ensures Ingest(EMPTY_ENGINE, "application", QUIET) == ONE && Ingest(ONE, "application", BUSY) == TWO
    ensures Ingest(TWO, "process", BUSY) == THREE && Ingest(LINKED, "port", STICK) == WAITING
  {
    hide StoredRecord, IsBehavioural, QUIET, BUSY, STICK, Ingest, PAIR;
    Records();
    EndpointsDiffer();
    IngestOne(EMPTY_ENGINE, "application", QUIET);
    IngestOne(ONE, "application", BUSY);
    IngestOne(TWO, "process", BUSY);
    IngestOne(LINKED, "port", STICK);
    assert [] + [X1] == [X1] && [X1] + [X2] == [X1, X2] && [] + [X3] == [X3] && [] + [X4] == [X4];
  }

  // ---------------------------------------------------------------- the first cycle

  lemma Keeps(ring: seq<RingRecord>, now: int)
    requires ring != [] ==> !TooOld(ring[0], now)
    ensures PruneRing(ring, now) == ring
  {
    hide TooOld;
  }

  lemma OnePruned(s: State, endpoints: seq<string>, k: nat, now: int)
    requires k < |endpoints| && endpoints[k] in s.rings
             && PruneRing(s.rings[endpoints[k]], now) == s.rings[endpoints[k]]
    ensures PruneFrom(s, endpoints, k, now) == PruneFrom(s, endpoints, k + 1, now)
  {
    hide PruneRing;
    assert s.rings[endpoints[k] := s.rings[endpoints[k]]] == s.rings;
  }

  lemma AgedFirst()
    ensures Aged(THREE, ["application", "process"], [], EARLY) == (THREE, [])
  {
    hide StoredRecord, PruneRing, QUIET, BUSY, STICK;
    Records();
    EndpointsDiffer();
    var endpoints := ["application", "process"];
    Keeps([X1, X2], EARLY);
    Keeps([X3], EARLY);
    OnePruned(THREE, endpoints, 0, EARLY);
    OnePruned(THREE, endpoints, 1, EARLY);
  }

  lemma SameProcess()
    ensures Joinable(X2, X3)
  {
    hide StoredRecord, QUIET, BUSY, STICK;
    Records();
    EndpointsDiffer();
  }

  /** The scan of two rings whose first one is the timeless record and one more: only that one is tried. */
  lemma SecondOnly(p: Scan, w: int, now: int)
    requires |p.a| == 2 && p.a[0].record.time == 0 && p.joins == 0 && Scannable(p.a[1])
    requires |p.b| == 1 ==> p.a[1].record.time - w <= p.b[0].record.time <= p.a[1].record.time + w
                            && p.b[0].record.time != 0 && Joinable(p.a[1], p.b[0])
    requires |p.b| <= 1
    ensures TwoPointerScan(p, 0, 0, w, now) == if |p.b| == 1 then JoinAt(p, 1, 0, now) else p
  {
    hide Joinable, JoinAt;
    var time, r := p.a[1].record.time, if |p.b| == 1 then JoinAt(p, 1, 0, now) else p;
    assert Slide(p.b, 0, time - w) == 0;
    assert FirstInWindow(p.a[1], p.b, 0, time + w) == if |p.b| == 1 then 0 else |p.b|;
    assert TwoPointerScan(r, 2, 0, w, now) == r;
    assert TwoPointerScan(p, 1, 0, w, now) == r;
  }

  lemma JoinFirst(p: Scan)
    requires p.a == [X1, X2] && p.b == [X3] && p.book == THREE.book && p.joins == 0 && p.out == []
    ensures JoinAt(p, 1, 0, EARLY) == Scan([X1, Y2], [Y3], LINKED.book, 1, [OPENED])
  {
    hide StoredRecord, EvaluateEdge;
    assert [] + [3] == [3] && [] + [2] == [2] && [] + [OPENED] == [OPENED];
    assert EdgeOf(X2.(partners := [3]), X3.(partners := [2])) == EdgeOf(X2, X3);
  }

  lemma FirstCycle()
    ensures Cycle(TwoPointer, THREE, ["application", "process"], [], EARLY) == Progress(LINKED, 1, [OPENED])
  {
    hide StoredRecord, JoinAt, TwoPointerScan, Joinable, EdgeOf, Aged, QUIET, BUSY, STICK;
    Records();
    EndpointsDiffer();
    AgedFirst();
    SameProcess();
    var endpoints, c := ["application", "process"], Progress(THREE, 0, []);
    var p := ScanOf(c, "application", "process");
    SecondOnly(p, JOIN_WINDOW_MS, EARLY);
    JoinFirst(p);
    var c' := ScanPair(TwoPointer, c, "application", "process", EARLY);
    assert c' == Progress(LINKED, 1, [OPENED]);
    assert ScanFrom(TwoPointer, c', endpoints, 2, 3, EARLY) == c';
    assert ScanFrom(TwoPointer, c', endpoints, 1, 2, EARLY) == c';
    assert ScanFrom(TwoPointer, c', endpoints, 0, 2, EARLY) == c';
  }

  // ---------------------------------------------------------------- the second cycle

  const ORDER: seq<string> := ["application", "port", "process"]

  lemma PrunedSecond()
    ensures PruneFrom(WAITING, ORDER, 0, LATER) == WAITING.(rings := WAITING.rings["process" := []], evictedByAge := 1)
  {
    hide StoredRecord, PruneRing, QUIET, BUSY, STICK, PAIR;
    Records();
    EndpointsDiffer();
    Keeps([X1, Y2], LATER);
    Keeps([X4], LATER);
    OnePruned(WAITING, ORDER, 0, LATER);
    OnePruned(WAITING, ORDER, 1, LATER);
    PartnerIsOld();
  }

  lemma PartnerIsOld()
    ensures PruneRing([Y3], LATER) == []
  {
    hide StoredRecord, QUIET, BUSY, STICK;
    Records();
    assert [Y3][1..] == [];
  }

  lemma AgedSecond()
    ensures Aged(WAITING, ORDER, [1], LATER) == (AGED, [Closing(1, PAIR)])
  {
    hide StoredRecord, PruneFrom, EdgeOf;
    PrunedSecond();
    var s := WAITING.(rings := WAITING.rings["process" := []], evictedByAge := 1);
    assert s.book.chains - {1} == map[] && [] + [Closing(1, PAIR)] == [Closing(1, PAIR)];
    assert s.(book := s.book.(chains := map[]), expired := 1) == AGED;
    assert ExpireFrom(AGED, [Closing(1, PAIR)], [1], 1, LATER) == (AGED, [Closing(1, PAIR)]);
  }

  lemma StickMatches()
    ensures Joinable(Y2, X4)
  {
    hide StoredRecord, QUIET, BUSY, STICK;
    Records();
    EndpointsDiffer();
    assert InSession(R4, EARLY) && "E:" != "";
  }

  /** The line that returns: one member under the closed id. */
  const RETURNED: Revision := Revision(1, 1, false, [Joined(X4, EdgeOf(Y2, X4))])

  lemma JoinSecond(p: Scan)
    requires p.a == [X1, Y2] && p.b == [X4] && p.book == AGED.book && p.joins == 0
    ensures var r := JoinAt(p, 1, 0, LATER);
            r.joins == 1 && r.out == p.out + [RETURNED] && |r.a| == 2 && r.a[0] == X1 && r.a[1].record == R2
  {
    hide StoredRecord, EvaluateEdge;
    assert EdgeOf(Y2.(partners := [3] + [4]), X4.(partners := [] + [2])) == EdgeOf(Y2, X4);
    assert [] + [Joined(X4, EdgeOf(Y2, X4))] == [Joined(X4, EdgeOf(Y2, X4))];
  }

  lemma {:induction false} EmptyScan(p: Scan, i: nat, j: nat, w: int, now: int)
    requires p.b == []
    ensures TwoPointerScan(p, i, j, w, now) == p
    decreases |p.a| - i
  {
    hide JoinAt;
    if i < |p.a| {
      EmptyScan(p, i + 1, j, w, now);
      if Scannable(p.a[i]) { EmptyScan(p, i + 1, Slide(p.b, j, p.a[i].record.time - w), w, now); }
    }
  }

  /** Scanning against an empty ring changes no line. */
  lemma EmptyPair(c: Progress, e: string, f: string, now: int)
    requires e in c.s.rings && f in c.s.rings && c.s.rings[f] == [] && e != f
    ensures ScanPair(TwoPointer, c, e, f, now) == c
  {
    hide TwoPointerScan;
    EmptyScan(ScanOf(c, e, f), 0, 0, Prefilter(e, f), now);
    assert c.s.rings[e := c.s.rings[e]][f := []] == c.s.rings;
  }

  lemma SecondCycle()
    ensures Cycle(TwoPointer, WAITING, ORDER, [1], LATER).out == [Closing(1, PAIR), RETURNED]
  {
    hide StoredRecord, JoinAt, TwoPointerScan, Joinable, EdgeOf, Aged, QUIET, BUSY, STICK, PAIR, RETURNED;
    Records();
    EndpointsDiffer();
    AgedSecond();
    StickMatches();
    var c := Progress(AGED, 0, [Closing(1, PAIR)]);
    var p := ScanOf(c, "application", "port");
    SecondOnly(p, PORT_PREFILTER_MS, LATER);
    JoinSecond(p);
    var c' := ScanPair(TwoPointer, c, "application", "port", LATER);
    EmptyPair(c', "application", "process", LATER);
    EmptyPair(c', "port", "process", LATER);
    RestOfPairs(c');
    assert ScanFrom(TwoPointer, c', ORDER, 0, 2, LATER) == c';
  }

  lemma RestOfPairs(c: Progress)
    requires ScanPair(TwoPointer, c, "application", "process", LATER) == c
             && ScanPair(TwoPointer, c, "port", "process", LATER) == c
    ensures ScanFrom(TwoPointer, c, ORDER, 0, 2, LATER) == c
  {
    hide ScanPair;
    assert ScanFrom(TwoPointer, c, ORDER, 3, 4, LATER) == c;
    assert ScanFrom(TwoPointer, c, ORDER, 2, 3, LATER) == c;
    assert ScanFrom(TwoPointer, c, ORDER, 1, 3, LATER) == c;
    assert ScanFrom(TwoPointer, c, ORDER, 1, 2, LATER) == c;
    assert ScanFrom(TwoPointer, c, ORDER, 0, 3, LATER) == c;
  }

  // ---------------------------------------------------------------- the run

  const E1: Event := Feed(EARLY, "application", QUIET)
  const E2: Event := Feed(EARLY, "application", BUSY)
  const E3: Event := Feed(EARLY, "process", BUSY)
  const E4: Event := Correlate(EARLY, ["application", "process"], [])
  const E5: Event := Feed(LATER, "port", STICK)
  const E6: Event := Correlate(LATER, ORDER, [1])

  lemma PlayedMore(events: seq<Event>, w: World, event: Event)
    requires Played(events, w) && Iterates(w, event)
    ensures Played(events + [event], Next(w, event))
  {
    hide Iterates, Next;
    assert (events + [event])[..|events|] == events;
  }

  lemma Keys()
    ensures Enumerates(["application", "process"], THREE.rings.Keys) && Enumerates([], THREE.book.chains.Keys)
    ensures Enumerates(ORDER, WAITING.rings.Keys) && Enumerates([1], WAITING.book.chains.Keys)
  {
    hide StoredRecord, PAIR;
    EndpointsDiffer();
  }

  predicate Leads(w: World, event: Event, w': World) { w' == Next(w, event) }

  lemma PlayedFive(w0: World, e1: Event, w1: World, e2: Event, w2: World, e3: Event, w3: World, e4: Event, w4: World,
                   e5: Event, w5: World)
    requires Played([], w0) && Iterates(w0, e1) && Iterates(w1, e2) && Iterates(w2, e3) && Iterates(w3, e4)
             && Iterates(w4, e5)
    requires Leads(w0, e1, w1) && Leads(w1, e2, w2) && Leads(w2, e3, w3) && Leads(w3, e4, w4) && Leads(w4, e5, w5)
    ensures Played([e1, e2, e3, e4, e5], w5)
  {
    hide Iterates, Next, Played;
    PlayedMore([], w0, e1);
    PlayedMore([] + [e1], w1, e2);
    PlayedMore([] + [e1] + [e2], w2, e3);
    PlayedMore([] + [e1] + [e2] + [e3], w3, e4);
    PlayedMore([] + [e1] + [e2] + [e3] + [e4], w4, e5);
    assert [] + [e1] + [e2] + [e3] + [e4] + [e5] == [e1, e2, e3, e4, e5];
  }

  lemma FeedLeads(s: State, log: seq<Revision>, clock: int, endpoint: string, line: string, now: int, s': State)
    requires Ingest(s, endpoint, line) == s'
    ensures var event := Feed(now, endpoint, line);
            Leads(World(s, log, clock), event, World(s', log, now)) && Iterates(World(s, log, clock), event)
  {
    hide Ingest;
  }

  lemma LinkLeads()
    ensures Leads(World(THREE, [], EARLY), E4, World(LINKED, [OPENED], EARLY)) && Iterates(World(THREE, [], EARLY), E4)
  {
    hide Cycle, Enumerates, THREE, LINKED, OPENED;
    FirstCycle();
    Keys();
    assert [] + [OPENED] == [OPENED];
  }

  /** Five events lead to a state in which the group is open and its first member is held back. */
  lemma FiveEvents()
    ensures Played([E1, E2, E3, E4, E5], World(WAITING, [OPENED], LATER))
  {
    hide Ingest, Played, ONE, TWO, THREE, LINKED, WAITING, QUIET, BUSY, STICK, OPENED, Leads, Iterates, EMPTY_ENGINE;
    Feeds();
    LinkLeads();
    FeedLeads(EMPTY_ENGINE, [], EARLY, "application", QUIET, EARLY, ONE);
    FeedLeads(ONE, [], EARLY, "application", BUSY, EARLY, TWO);
    FeedLeads(TWO, [], EARLY, "process", BUSY, EARLY, THREE);
    FeedLeads(LINKED, [OPENED], EARLY, "port", STICK, LATER, WAITING);
    NothingPlayed(World(EMPTY_ENGINE, [], EARLY));
    PlayedFive(World(EMPTY_ENGINE, [], EARLY), E1, World(ONE, [], EARLY), E2, World(TWO, [], EARLY), E3,
               World(THREE, [], EARLY), E4, World(LINKED, [OPENED], EARLY), E5, World(WAITING, [OPENED], LATER));
  }

  lemma NothingPlayed(w: World)
    requires w.s == EMPTY_ENGINE && w.log == []
    ensures Played([], w)
  {
  }

  lemma EventsInOrder()
    ensures InputOrdered([E1, E2, E3, E4, E5, E6])
  {
    hide StoredRecord, IsBehavioural, QUIET, BUSY, STICK;
    Records();
    EndpointsDiffer();
    var events := [E1, E2, E3, E4, E5, E6];
    assert NotAhead(E1) && NotAhead(E2) && NotAhead(E3) && NotAhead(E4) && NotAhead(E5) && NotAhead(E6);
    forall i, j | 0 <= i < j < |events| ensures Succeeds(events[i], events[j]) {
      EventTimes(i);
      EventTimes(j);
    }
  }

  /** Each event's clock, and the time of its line: 0, or the clock. */
  lemma EventTimes(i: nat)
    requires i < 6
    ensures var e := [E1, E2, E3, E4, E5, E6][i];
            && e.now == (if i < 4 then EARLY else LATER)
            && (Heard(e) ==> TimeOf(e) == 0 || TimeOf(e) == e.now)
  {
    hide StoredRecord, IsBehavioural, QUIET, BUSY, STICK;
    Records();
  }

  /** "Final" is not final: a run whose clock and times are in order, none ahead
      of the clock, publishes the group, closes it by its final line, and in the
      same cycle publishes a line under its id with one member and revision 1. */
  lemma FinalCanReturn() returns (events: seq<Event>, w: World)
    ensures Played(events, w) && InputOrdered(events)
    ensures |w.log| == 3 && w.log[0].group == w.log[1].group == w.log[2].group == 1
    ensures !w.log[0].final && w.log[1].final && !w.log[2].final
    ensures |w.log[1].members| == 2 && |w.log[2].members| == 1 && w.log[2].revision == 1
  {
    hide Cycle, Played, InputOrdered, WAITING, Enumerates, StoredRecord, EdgeOf, QUIET, BUSY, STICK;
    FiveEvents();
    Keys();
    SecondCycle();
    EventsInOrder();
    var before := World(WAITING, [OPENED], LATER);
    PlayedMore([E1, E2, E3, E4, E5], before, E6);
    events, w := [E1, E2, E3, E4, E5] + [E6], Next(before, E6);
    assert events == [E1, E2, E3, E4, E5, E6];
    assert w.log == [OPENED] + [Closing(1, PAIR), RETURNED];
  }

  // ---------------------------------------------------------------- how a closed group returns

  /** The record refers to a group that is no longer there. */
  predicate Orphaned(x: RingRecord, book: Book) { x.group != 0 && x.group !in book.chains }

  /** One of the two records refers to a closed group and the other to none. */
  predicate Revives(p: Scan, i: nat, k: nat)
    requires i < |p.a| && k < |p.b|
  {
    || (Orphaned(p.a[i], p.book) && p.b[k].group == 0)
    || (Orphaned(p.b[k], p.book) && p.a[i].group == 0)
  }

  /** The line is a story of the group that begins again: revision 1 with one member. */
  predicate BeginsAgain(line: Revision, g: nat) {
    line.group == g && !line.final && line.revision == 1 && |line.members| == 1
  }

  function ClosedGroup(p: Scan, i: nat, k: nat): nat
    requires i < |p.a| && k < |p.b|
  {
    if p.a[i].group != 0 then p.a[i].group else p.b[k].group
  }

  predicate PublishesNext(before: seq<Revision>, after: seq<Revision>, g: nat) {
    |before| < |after| && before == after[..|before|] && BeginsAgain(after[|before|], g)
  }

  /** Whenever a record that still refers to a closed group joins one without a group,
      on whichever side of the pair it is, that group's id is published again. */
  lemma HeldBackReturns(p: Scan, i: nat, k: nat, now: int)
    requires i < |p.a| && k < |p.b| && Revives(p, i, k)
    ensures PublishesNext(p.out, JoinAt(p, i, k, now).out, ClosedGroup(p, i, k))
  {
    hide EdgeOf;
  }

  lemma JoinPublishes(p: Scan, i: nat, k: nat, now: int)
    requires i < |p.a|
    ensures p.out <= JoinIfAny(p, i, k, now).out
  {
    hide AssignOrExtend, EdgeOf;
  }

  /** Nothing that was published is taken back: neither by the rest of a scan, */
  lemma {:induction false} ScanPublishes(p: Scan, i: nat, j: nat, w: int, now: int)
    ensures p.out <= TwoPointerScan(p, i, j, w, now).out
    decreases |p.a| - i
  {
    hide JoinIfAny, Slide, FirstInWindow, Scannable;
    if i < |p.a| && p.joins < MAX_JOINS_PER_CYCLE {
      if Scannable(p.a[i]) {
        var time := p.a[i].record.time;
        var j' := Slide(p.b, j, time - w);
        var k := FirstInWindow(p.a[i], p.b, j', time + w);
        JoinPublishes(p, i, k, now);
        ScanPublishes(JoinIfAny(p, i, k, now), i + 1, j', w, now);
      } else {
        ScanPublishes(p, i + 1, j, w, now);
      }
    }
  }

  /** nor by the rest of a cycle. */
  lemma {:induction false} PairsPublish(c: Progress, endpoints: seq<string>, i: nat, j: nat, now: int)
    requires i < j
    ensures c.out <= ScanFrom(TwoPointer, c, endpoints, i, j, now).out
    decreases |endpoints| - i, |endpoints| - j
  {
    hide TwoPointerScan;
    if i < |endpoints| && c.joins < MAX_JOINS_PER_CYCLE {
      if j >= |endpoints| {
        PairsPublish(c, endpoints, i + 1, i + 2, now);
      } else {
        var p := ScanOf(c, endpoints[i], endpoints[j]);
        ScanPublishes(p, 0, 0, Prefilter(endpoints[i], endpoints[j]), now);
        PairsPublish(ScanPair(TwoPointer, c, endpoints[i], endpoints[j], now), endpoints, i, j + 1, now);
      }
    }
  }

  /** The scan of two rings comes to record `n` first and gives it partner `k`. */
  predicate FirstJoin(p: Scan, i: nat, j: nat, w: int, n: nat, k: nat) {
    && i <= n < |p.a| && k < |p.b| && p.joins < MAX_JOINS_PER_CYCLE && Scannable(p.a[n])
    && (forall m :: i <= m < n ==> !Scannable(p.a[m]))
    && var time := p.a[n].record.time; k == FirstInWindow(p.a[n], p.b, Slide(p.b, j, time - w), time + w)
  }

  lemma {:induction false} ScanReturns(p: Scan, i: nat, j: nat, w: int, n: nat, k: nat, now: int)
    requires FirstJoin(p, i, j, w, n, k) && Revives(p, n, k)
    ensures PublishesNext(p.out, TwoPointerScan(p, i, j, w, now).out, ClosedGroup(p, n, k))
    decreases n - i
  {
    hide JoinAt, Slide, FirstInWindow, Scannable, BeginsAgain, Revives;
    if i < n {
      ScanReturns(p, i + 1, j, w, n, k, now);
    } else {
      var joined := JoinAt(p, n, k, now);
      HeldBackReturns(p, n, k, now);
      ScanPublishes(joined, n + 1, Slide(p.b, j, p.a[n].record.time - w), w, now);
      StillNext(p.out, joined.out, TwoPointerScan(p, i, j, w, now).out, ClosedGroup(p, n, k));
    }
  }

  lemma StillNext(before: seq<Revision>, after: seq<Revision>, later: seq<Revision>, g: nat)
    requires PublishesNext(before, after, g) && after <= later
    ensures PublishesNext(before, later, g)
  {
    hide BeginsAgain;
    assert later[..|before|] == after[..|before|] && later[|before|] == after[|before|];
  }

  /** From any pair of rings on: if the pair's first join revives a closed group, the group is published next. */
  lemma PairReturns(c: Progress, endpoints: seq<string>, i: nat, j: nat, n: nat, k: nat, now: int)
    requires i < j < |endpoints|
    requires var p := ScanOf(c, endpoints[i], endpoints[j]);
             FirstJoin(p, 0, 0, Prefilter(endpoints[i], endpoints[j]), n, k) && Revives(p, n, k)
    ensures PublishesNext(c.out, ScanFrom(TwoPointer, c, endpoints, i, j, now).out,
                          ClosedGroup(ScanOf(c, endpoints[i], endpoints[j]), n, k))
  {
    hide TwoPointerScan, FirstInWindow, Slide, Scannable, BeginsAgain, Revives, PublishesNext, ClosedGroup;
    var p := ScanOf(c, endpoints[i], endpoints[j]);
    ScanReturns(p, 0, 0, Prefilter(endpoints[i], endpoints[j]), n, k, now);
    var c' := ScanPair(TwoPointer, c, endpoints[i], endpoints[j], now);
    PairsPublish(c', endpoints, i, j + 1, now);
    StillNext(c.out, c'.out, ScanFrom(TwoPointer, c, endpoints, i, j, now).out, ClosedGroup(p, n, k));
  }

  /** A whole cycle: if after ageing the first join of the first pair revives a closed
      group, the cycle's first line after the final ones is that group's, begun again. */
  lemma CycleReturns(s: State, endpoints: seq<string>, order: seq<nat>, n: nat, k: nat, now: int)
    requires |endpoints| >= 2
    requires var aged := Aged(s, endpoints, order, now);
             var p := ScanOf(Progress(aged.0, 0, aged.1), endpoints[0], endpoints[1]);
             FirstJoin(p, 0, 0, Prefilter(endpoints[0], endpoints[1]), n, k) && Revives(p, n, k)
    ensures var aged := Aged(s, endpoints, order, now);
            var p := ScanOf(Progress(aged.0, 0, aged.1), endpoints[0], endpoints[1]);
            PublishesNext(aged.1, Cycle(TwoPointer, s, endpoints, order, now).out, ClosedGroup(p, n, k))
  {
    hide Aged, ScanFrom, FirstJoin, Revives, PublishesNext, ClosedGroup;
    var aged := Aged(s, endpoints, order, now);
    PairReturns(Progress(aged.0, 0, aged.1), endpoints, 0, 1, n, k, now);
  }
}
