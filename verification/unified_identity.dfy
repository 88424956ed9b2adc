/** What the dedup identity tells apart: over every run a line is refused as a duplicate exactly when the fields that
    identify its evidence agree with those of one of the last 8192 accepted records. */
module UnifiedIdentity {
  import opened Text
  import opened JsonFields
  import opened JsonPrinter
  import opened JsonNumbers
  import opened Hashing
  import opened Envelope
  import opened Evidence
  import opened Separated
  import opened UnifiedSpec
  import opened UnifiedHistory
  import opened UnifiedInvariant
  import opened UnifiedTheorems
  import opened UnifiedRuns

  // ---------------------------------------------------------------- the same evidence, by its fields

  /** The writer stamped the record with a session and a record id. */
  predicate Stamped(r: Record) { r.nativeSessionId != "" && r.nativeRecordId != "" }

  /** Stamped records are the same by session and id, others by content hash, and records with neither by the hash of
      their first 4096 bytes; always at the same endpoint. */
  predicate SameEvidence(a: Record, b: Record) {
    && a.endpoint == b.endpoint
    && if Stamped(a) || Stamped(b) then
         && Stamped(a) && Stamped(b)
         && a.nativeSessionId == b.nativeSessionId && a.nativeRecordId == b.nativeRecordId
       else if a.nativeContentHash != "" || b.nativeContentHash != "" then
         a.nativeContentHash == b.nativeContentHash
       else
         HexHash(a.rawLine) == HexHash(b.rawLine)
  }

  /** Where the parts of an identity start: bars separate the endpoint and the record id. */
  predicate Separable(r: Record) { BarFree(r.endpoint) && BarFree(r.nativeRecordId) }

  function KindOf(r: Record): string {
    if Stamped(r) then "native" else if r.nativeContentHash != "" then "content" else "raw"
  }

  function DetailOf(r: Record): string {
    if Stamped(r) then r.nativeSessionId + "|" + r.nativeRecordId
    else if r.nativeContentHash != "" then r.nativeContentHash
    else HexHash(r.rawLine)
  }

  lemma IdentityParts(r: Record)
    ensures ExactIdentity(r) == r.endpoint + "|" + (KindOf(r) + "|" + DetailOf(r))
    ensures BarFree(KindOf(r))
  {
    hide HexHash;
    KindTexts();
    if Stamped(r) {
      Regroup(r.endpoint, "native", r.nativeSessionId + "|" + r.nativeRecordId);
      assert r.endpoint + "|native|" + r.nativeSessionId + "|" + r.nativeRecordId
          == r.endpoint + "|native|" + (r.nativeSessionId + "|" + r.nativeRecordId);
    } else {
      Regroup(r.endpoint, KindOf(r), DetailOf(r));
    }
  }

  lemma KindTexts()
    ensures "|native|" == "|" + "native" + "|" && "|content|" == "|" + "content" + "|" && "|raw|" == "|" + "raw" + "|"
    ensures BarFree("native") && BarFree("content") && BarFree("raw")
  {
  }

  lemma Regroup(endpoint: string, kind: string, detail: string)
    ensures endpoint + ("|" + kind + "|") + detail == endpoint + "|" + (kind + "|" + detail)
  {
    var l, r := endpoint + ("|" + kind + "|") + detail, endpoint + "|" + (kind + "|" + detail);
    assert |l| == |r|;
    assert forall i :: 0 <= i < |l| ==> l[i] == r[i];
  }

  lemma KindsDiffer()
    ensures "native" != "content" && "native" != "raw" && "content" != "raw"
  {
    assert "native"[0] == 'n' && "content"[0] == 'c' && "raw"[0] == 'r';
  }

  /** Identities are equal exactly when the fields say that the evidence is the same. */
  lemma IdentityExactly(a: Record, b: Record)
    requires Separable(a) && Separable(b)
    ensures ExactIdentity(a) == ExactIdentity(b) <==> SameEvidence(a, b)
  {
    hide ExactIdentity, HexHash;
    IdentityParts(a);
    IdentityParts(b);
    KindsDiffer();
    if ExactIdentity(a) == ExactIdentity(b) {
      SplitAtBar(a.endpoint, KindOf(a) + "|" + DetailOf(a), b.endpoint, KindOf(b) + "|" + DetailOf(b));
      SplitAtBar(KindOf(a), DetailOf(a), KindOf(b), DetailOf(b));
      if Stamped(a) {
        SplitAtLastBar(a.nativeSessionId, a.nativeRecordId, b.nativeSessionId, b.nativeRecordId);
      }
    }
  }

  // ---------------------------------------------------------------- kept records

  lemma PrintedIsBarFree(n: int)
    ensures BarFree(Printed(n))
  {
    hide Decimal;
    var digits := Decimal(if n < 0 then -n else n);
    DecimalDenotes(if n < 0 then -n else n);
    assert '|' !in digits;
  }

  lemma KeptIsSeparable(endpoint: string, line: string)
    requires BarFree(endpoint)
    ensures Separable(KeptRecord(endpoint, line))
  {
    hide ExtractNumber, ExtractString, Printed, NormalizeRecordType, BridgePath;
    match ExtractNumber(line, "record_id")
    case Some(n) => PrintedIsBarFree(n);
    case None =>
  }

  /** Every endpoint of the run is a plain name. */
  predicate NamesAreBarFree(events: seq<Event>) {
    forall e <- events :: e.Line? ==> BarFree(e.endpoint)
  }

  lemma {:induction false} AcceptedAreSeparable(sorter: seq<Candidate> -> seq<Candidate>, events: seq<Event>)
    requires NamesAreBarFree(events)
    ensures forall a <- AcceptedIn(sorter, events) :: Separable(a.record)
  {
    hide Ingest, KeptRecord, Separable;
    if events != [] {
      var last := events[|events| - 1];
      AcceptedAreSeparable(sorter, events[..|events| - 1]);
      assert last in events;
      if last.Line? { KeptIsSeparable(last.endpoint, last.line); }
    }
  }

  // ---------------------------------------------------------------- which lines are objects

  predicate IsBlankChar(c: char) { c in [' ', '\t', '\r', '\n'] }

  predicate BlankFrom(text: string, lo: nat, hi: nat)
    requires hi <= |text|
  {
    forall k :: lo <= k < hi ==> IsBlankChar(text[k])
  }

  lemma {:induction false} FirstAt(text: string) returns (i: nat)
    ensures i <= |text| && BlankFrom(text, 0, i) && (i < |text| ==> !IsBlankChar(text[i]))
    ensures FirstNonBlank(text) == if i < |text| then Some(text[i]) else None
  {
    i := 0;
    if text != "" && Blank(text[0]) {
      var k := FirstAt(text[1..]);
      i := k + 1;
      forall m | 0 <= m < i ensures IsBlankChar(text[m]) {
        if m > 0 { assert text[1..][m - 1] == text[m]; }
      }
    }
  }

  lemma {:induction false} LastAt(text: string) returns (j: nat)
    ensures j <= |text| && BlankFrom(text, j, |text|) && (j > 0 ==> !IsBlankChar(text[j - 1]))
    ensures LastNonBlank(text) == if j > 0 then Some(text[j - 1]) else None
  {
    j := |text|;
    if text != "" && Blank(text[|text| - 1]) {
      j := LastAt(text[..|text| - 1]);
      forall m | j <= m < |text| ensures IsBlankChar(text[m]) {
        if m < |text| - 1 { assert text[..|text| - 1][m] == text[m]; }
      }
    }
  }

  /** Braces at i and j, and nothing but blanks around them. */
  predicate BracedAt(line: string, i: nat, j: nat) {
    i < j < |line| && line[i] == '{' && line[j] == '}' && BlankFrom(line, 0, i) && BlankFrom(line, j + 1, |line|)
  }

  /** A line is taken for an object exactly when it is an opening brace and a later closing one with anything between
      them, in blanks. */
  lemma ObjectExactly(line: string)
    ensures LooksLikeObject(line) <==> exists i: nat, j: nat :: BracedAt(line, i, j)
  {
    hide FirstNonBlank, LastNonBlank;
    var a := FirstAt(line);
    var b := LastAt(line);
    if LooksLikeObject(line) {
      assert BracedAt(line, a, b - 1);
    }
    if i: nat, j: nat :| BracedAt(line, i, j) {
      assert !IsBlankChar(line[i]) && !IsBlankChar(line[j]);
      assert a == i && b == j + 1;
    }
  }

  // ---------------------------------------------------------------- duplicates over a run

  /** One of the last 8192 accepted records is the same evidence. */
  predicate SeenBefore(acc: seq<Arrival>, r: Record) {
    exists k :: 0 <= k < |acc| && |acc| - k <= 8192 && SameEvidence(acc[k].record, r)
  }

  lemma WindowHasIdentity(acc: seq<Arrival>, r: Record)
    requires Separable(r) && forall a <- acc :: Separable(a.record)
    ensures SeenBefore(acc, r)
       <==> exists k :: WindowStart(|acc|) <= k < |acc| && ExactIdentity(acc[k].record) == ExactIdentity(r)
  {
    hide ExactIdentity, SameEvidence, Separable;
    forall k | 0 <= k < |acc|
      ensures ExactIdentity(acc[k].record) == ExactIdentity(r) <==> SameEvidence(acc[k].record, r)
    {
      assert acc[k] in acc;
      IdentityExactly(acc[k].record, r);
    }
  }

  /** After every run of lines and drains the next line is accepted exactly unless it is empty,
      is no object, or is the same evidence as one of the last 8192 accepted records. */
  lemma DuplicatesExactly(sorter: seq<Candidate> -> seq<Candidate>, events: seq<Event>, endpoint: string, line: string,
                          wall: int)
    requires IsSorter(sorter) && NamesAreBarFree(events) && BarFree(endpoint)
    ensures Ingest(sorter, Run(sorter, events).0, endpoint, line, wall).1
       <==> line != "" && LooksLikeObject(line)
            && !SeenBefore(AcceptedIn(sorter, events), KeptRecord(endpoint, line))
  {
    hide Inv, Ingest, IsSorter, Run, AcceptedIn, KeptRecord, LooksLikeObject, ExactIdentity, Separable, SeenBefore,
         NamesAreBarFree;
    var h := EveryRunKeeps(sorter, events);
    var h' := IngestKeeps(sorter, Run(sorter, events).0, h, endpoint, line, wall);
    AcceptedAreSeparable(sorter, events);
    KeptIsSeparable(endpoint, line);
    WindowHasIdentity(h.accepted, KeptRecord(endpoint, line));
    ObservedRecord(endpoint, line, wall);
  }

  lemma ObservedRecord(endpoint: string, line: string, wall: int)
    ensures Observe(endpoint, line, wall).record == KeptRecord(endpoint, line)
  {
  }

  // ---------------------------------------------------------------- lines wrapped by a writer

  lemma {:induction false} LastOfTwo(a: string, b: string)
    ensures LastNonBlank(a + b) == if LastNonBlank(b).Some? then LastNonBlank(b) else LastNonBlank(a)
    decreases |b|
  {
    hide Blank;
    if b == "" {
      assert a + b == a;
    } else {
      assert (a + b)[..|a + b| - 1] == a + b[..|b| - 1];
      LastOfTwo(a, b[..|b| - 1]);
    }
  }

  lemma WrappedIsObject(json: string, id: nat, session: string, file: string, offset: nat)
    requires json != "" && json[0] == '{' && LooksLikeObject(json)
    ensures Wrap(json, id, session, file, offset) != "" && LooksLikeObject(Wrap(json, id, session, file, offset))
  {
    hide FieldsText, Stamp, HexHash;
    var head := "{" + FieldsText(Stamp(id, session, file, offset, HexHash(json))) + ",";
    var line := Wrap(json, id, session, file, offset);
    assert line == head + json[1..];
    assert json == "{" + json[1..];
    LastOfTwo("{", json[1..]);
    assert LastNonBlank("{") == Some('{');
    LastOfTwo(head, json[1..]);
    assert line[0] == '{';
  }

  lemma WrappedRecord(endpoint: string, json: string, id: nat, session: string, file: string, offset: nat)
    requires Plain(session) && Plain(file) && json != "" && json[0] == '{' && id < Power10(18)
    ensures var r := KeptRecord(endpoint, Wrap(json, id, session, file, offset));
            && r.endpoint == endpoint && r.nativeSessionId == session && r.nativeRecordId == Decimal(id)
            && r.nativeContentHash == HexHash(json)
  {
    hide Power10, Decimal, Wrap, ExtractString, ExtractNumber, NormalizeRecordType, BridgePath, HexHash, Plain;
    EnvelopeReadsBack(json, id, session, file, offset);
  }

  lemma DecimalIsInjective(m: nat, n: nat)
    requires Decimal(m) == Decimal(n)
    ensures m == n
  {
    DecimalDenotes(m);
    DecimalDenotes(n);
  }

  /** An accepted record of this writer, session and record id is among the last 8192. */
  predicate SeenStamp(acc: seq<Arrival>, endpoint: string, session: string, id: nat) {
    exists k :: 0 <= k < |acc| && |acc| - k <= 8192 && acc[k].record.endpoint == endpoint
      && acc[k].record.nativeSessionId == session && acc[k].record.nativeRecordId == Decimal(id)
  }

  lemma SeenByStamp(acc: seq<Arrival>, r: Record, endpoint: string, session: string, id: nat)
    requires r.endpoint == endpoint && r.nativeSessionId == session != "" && r.nativeRecordId == Decimal(id)
    ensures SeenBefore(acc, r) <==> SeenStamp(acc, endpoint, session, id)
  {
    hide Decimal, HexHash;
    forall k | 0 <= k < |acc|
      ensures SameEvidence(acc[k].record, r)
         <==> acc[k].record.endpoint == endpoint && acc[k].record.nativeSessionId == session
              && acc[k].record.nativeRecordId == Decimal(id)
    {
    }
  }

  /** After every run a wrapped line is accepted exactly unless its endpoint, session and record id have been seen:
      what the body says makes no difference. */
  lemma WrappedIsAcceptedExactly(sorter: seq<Candidate> -> seq<Candidate>, events: seq<Event>, endpoint: string,
                                 json: string, id: nat, session: string, file: string, offset: nat, wall: int)
    requires IsSorter(sorter) && NamesAreBarFree(events) && BarFree(endpoint)
    requires json != "" && json[0] == '{' && LooksLikeObject(json)
    requires Plain(session) && Plain(file) && session != "" && id < Power10(18)
    ensures Ingest(sorter, Run(sorter, events).0, endpoint, Wrap(json, id, session, file, offset), wall).1
       <==> !SeenStamp(AcceptedIn(sorter, events), endpoint, session, id)
  {
    hide Ingest, IsSorter, Run, AcceptedIn, KeptRecord, LooksLikeObject, SeenBefore, SeenStamp, NamesAreBarFree, Wrap,
         Plain, Power10;
    var line := Wrap(json, id, session, file, offset);
    WrappedIsObject(json, id, session, file, offset);
    WrappedRecord(endpoint, json, id, session, file, offset);
    DuplicatesExactly(sorter, events, endpoint, line, wall);
    SeenByStamp(AcceptedIn(sorter, events), KeptRecord(endpoint, line), endpoint, session, id);
  }

  /** What a writer stamps on a line. */
  datatype Stamping = Stamping(json: string, id: nat, session: string, file: string, offset: nat)

  predicate Writable(w: Stamping) {
    && w.json != "" && w.json[0] == '{' && LooksLikeObject(w.json)
    && Plain(w.session) && Plain(w.file) && w.session != "" && w.id < Power10(18)
  }

  function LineOf(w: Stamping): string { Wrap(w.json, w.id, w.session, w.file, w.offset) }

  /** Two lines of one writer, one after the other: the first is accepted, and the second exactly if its session or its
      record id is another one. */
  lemma BothAreAccepted(sorter: seq<Candidate> -> seq<Candidate>, endpoint: string, v: Stamping, w: Stamping, wall: int)
    requires IsSorter(sorter) && BarFree(endpoint) && Writable(v) && Writable(w)
    ensures var first := Ingest(sorter, EMPTY, endpoint, LineOf(v), wall);
            && first.1
            && (Ingest(sorter, first.0, endpoint, LineOf(w), wall).1 <==> v.session != w.session || v.id != w.id)
  {
    hide Ingest, IsSorter, KeptRecord, LooksLikeObject, Wrap, Plain, Power10, Observe;
    WrappedIsAcceptedExactly(sorter, [], endpoint, v.json, v.id, v.session, v.file, v.offset, wall);
    var events := [Line(endpoint, LineOf(v), wall)];
    assert events[..0] == [];
    WrappedIsAcceptedExactly(sorter, events, endpoint, w.json, w.id, w.session, w.file, w.offset, wall);
    OneSeen(sorter, events, endpoint, v, wall, w.session, w.id);
  }

  lemma OneSeen(sorter: seq<Candidate> -> seq<Candidate>, events: seq<Event>, endpoint: string, v: Stamping, wall: int,
                session: string, id: nat)
    requires Writable(v) && events == [Line(endpoint, LineOf(v), wall)]
    requires Ingest(sorter, EMPTY, endpoint, LineOf(v), wall).1
    ensures SeenStamp(AcceptedIn(sorter, events), endpoint, session, id) <==> v.session == session && v.id == id
  {
    hide Ingest, KeptRecord, LooksLikeObject, Wrap, Plain, Power10, Observe, SeenStamp, Run;
    assert events[..0] == [];
    var a := Observe(endpoint, LineOf(v), wall);
    assert Run(sorter, []).0 == EMPTY by { EmptyRun(sorter); }
    assert AcceptedIn(sorter, events) == [] + [a] == [a];
    ObservedRecord(endpoint, LineOf(v), wall);
    WrappedRecord(endpoint, v.json, v.id, v.session, v.file, v.offset);
    SingleSeen(a, endpoint, v.session, v.id, session, id);
  }

  lemma EmptyRun(sorter: seq<Candidate> -> seq<Candidate>)
    ensures Run(sorter, []) == (EMPTY, [])
  {
  }

  lemma SingleSeen(a: Arrival, endpoint: string, session: string, id: nat, session': string, id': nat)
    requires a.record.endpoint == endpoint && a.record.nativeSessionId == session
             && a.record.nativeRecordId == Decimal(id)
    ensures SeenStamp([a], endpoint, session', id') <==> session == session' && id == id'
  {
    hide Decimal;
    if Decimal(id) == Decimal(id') { DecimalIsInjective(id, id'); }
    assert [a][0] == a;
  }

  // ---------------------------------------------------------------- duplicates, by the fields of the lines

  function SessionIn(line: string): string {
    match ExtractString(line, "session_id") case Some(s) => s case None => ""
  }

  function HashIn(line: string): string {
    match ExtractString(line, "content_hash") case Some(s) => s case None => ""
  }

  /** The writer stamped the line with a session and a record id. */
  predicate StampedLine(line: string) { SessionIn(line) != "" && ExtractNumber(line, "record_id").Some? }

  function Beginning(line: string): string { if |line| <= 4096 then line else line[..4096] }

  /** Two lines of one endpoint are the same evidence: stamped lines by session and record id,
      others by content hash, and lines with neither by the hash of their first 4096 bytes. */
  predicate SameLine(v: string, w: string) {
    if StampedLine(v) || StampedLine(w) then
      && StampedLine(v) && StampedLine(w)
      && SessionIn(v) == SessionIn(w) && ExtractNumber(v, "record_id") == ExtractNumber(w, "record_id")
    else if HashIn(v) != "" || HashIn(w) != "" then HashIn(v) == HashIn(w)
    else HexHash(Beginning(v)) == HexHash(Beginning(w))
  }

  lemma PrintedIsInjective(m: int, n: int)
    requires Printed(m) == Printed(n)
    ensures m == n
  {
    hide Decimal;
    DecimalDenotes(if m < 0 then -m else m);
    DecimalDenotes(if n < 0 then -n else n);
    if m < 0 { assert Printed(m)[0] == '-' && Decimal(-m) == Printed(m)[1..]; }
    if n < 0 { assert Printed(n)[0] == '-' && Decimal(-n) == Printed(n)[1..]; }
    assert m >= 0 ==> Printed(m)[0] in Printed(m);
    assert n >= 0 ==> Printed(n)[0] in Printed(n);
  }

  lemma PrintedIsNotEmpty(n: int)
    ensures Printed(n) != ""
  {
  }

  lemma KeptFields(endpoint: string, line: string)
    ensures var r := KeptRecord(endpoint, line);
            && r.endpoint == endpoint && r.nativeSessionId == SessionIn(line) && r.nativeContentHash == HashIn(line)
            && r.rawLine == Beginning(line)
            && r.nativeRecordId == match ExtractNumber(line, "record_id") case Some(n) => Printed(n) case None => ""
  {
    hide ExtractString, ExtractNumber, Printed, NormalizeRecordType, BridgePath;
  }

  /** The records kept of two lines are the same evidence exactly when the lines are, and come from one endpoint. */
  lemma SameLineExactly(e: string, v: string, f: string, w: string)
    ensures SameEvidence(KeptRecord(e, v), KeptRecord(f, w)) <==> e == f && SameLine(v, w)
  {
    hide ExtractString, ExtractNumber, Printed, KeptRecord, HexHash, Beginning, SessionIn, HashIn;
    KeptFields(e, v);
    KeptFields(f, w);
    var m, n := ExtractNumber(v, "record_id"), ExtractNumber(w, "record_id");
    if m.Some? { PrintedIsNotEmpty(m.value); }
    if n.Some? { PrintedIsNotEmpty(n.value); }
    if m.Some? && n.Some? && Printed(m.value) == Printed(n.value) { PrintedIsInjective(m.value, n.value); }
  }

  datatype Given = Given(endpoint: string, line: string)

  /** The lines of a run that were accepted, in order. */
  function AcceptedLines(sorter: seq<Candidate> -> seq<Candidate>, events: seq<Event>): seq<Given> {
    if events == [] then []
    else
      var front, last := events[..|events| - 1], events[|events| - 1];
      AcceptedLines(sorter, front)
      + if last.Line? && Ingest(sorter, Run(sorter, front).0, last.endpoint, last.line, last.wall).1
        then [Given(last.endpoint, last.line)] else []
  }

  lemma {:induction false} AcceptedAreLines(sorter: seq<Candidate> -> seq<Candidate>, events: seq<Event>)
    ensures |AcceptedLines(sorter, events)| == |AcceptedIn(sorter, events)|
    ensures forall k :: 0 <= k < |AcceptedIn(sorter, events)| ==>
              var g := AcceptedLines(sorter, events)[k];
              AcceptedIn(sorter, events)[k].record == KeptRecord(g.endpoint, g.line)
  {
    hide Ingest, Run, KeptRecord;
    if events != [] { AcceptedAreLines(sorter, events[..|events| - 1]); }
  }

  /** One of the last 8192 accepted lines is the same evidence from the same endpoint. */
  predicate GivenBefore(given: seq<Given>, endpoint: string, line: string) {
    exists k :: 0 <= k < |given| && |given| - k <= 8192 && given[k].endpoint == endpoint
      && SameLine(given[k].line, line)
  }

  /** After every run of lines and drains the next line is accepted exactly unless it is empty, is
      no object, or is the same evidence as one of the last 8192 accepted lines of its endpoint. */
  lemma LineIsAcceptedExactly(sorter: seq<Candidate> -> seq<Candidate>, events: seq<Event>, endpoint: string,
                              line: string, wall: int)
    requires IsSorter(sorter) && NamesAreBarFree(events) && BarFree(endpoint)
    ensures Ingest(sorter, Run(sorter, events).0, endpoint, line, wall).1
       <==> line != "" && (exists i: nat, j: nat :: BracedAt(line, i, j))
            && !GivenBefore(AcceptedLines(sorter, events), endpoint, line)
  {
    hide Ingest, IsSorter, Run, AcceptedIn, AcceptedLines, KeptRecord, LooksLikeObject, SameEvidence, NamesAreBarFree,
         SameLine, BracedAt;
    DuplicatesExactly(sorter, events, endpoint, line, wall);
    ObjectExactly(line);
    AcceptedAreLines(sorter, events);
    var given := AcceptedLines(sorter, events);
    forall k | 0 <= k < |given|
      ensures SameEvidence(AcceptedIn(sorter, events)[k].record, KeptRecord(endpoint, line))
         <==> given[k].endpoint == endpoint && SameLine(given[k].line, line)
    {
      SameLineExactly(given[k].endpoint, given[k].line, endpoint, line);
    }
  }

  /** What is made of a line: its own time where it has one, and whether it reports the state of a collector. */
  lemma ObservedExactly(endpoint: string, line: string, wall: int)
    ensures var a, kind, record := Observe(endpoint, line, wall), ExtractString(line, "type"),
                                   ExtractString(line, "record_type");
            && a.record == KeptRecord(endpoint, line) && a.wall == wall
            && a.eventMs == (match ExtractNumber(line, "t_unix_ms") case Some(t) => if t > 0 then t else wall
                                                                     case None => wall)
            && (a.operational <==> kind == Some("collector_health") || kind == Some("startup")
                                   || kind == Some("control_ack") || record == Some("collector_health"))
  {
    hide ExtractString, ExtractNumber, NormalizeRecordType, BridgePath, SemanticFingerprint;
  }
}
