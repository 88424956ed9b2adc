/** Which field of a line feeds which part of its record: for every flat object, whatever its values hold. */
module EvidenceFields {
  import opened Text
  import opened JsonFields
  import opened JsonPrinter
  import opened JsonNumbers
  import opened Evidence

  // ---------------------------------------------------------------- objects of texts and numbers

  datatype Value = Words(text: string) | Number(n: int)

  datatype Entry = Entry(key: string, value: Value)

  function Printing(e: Entry): Field {
    match e.value
    case Words(text) => Quoted(e.key, Escaped(text))
    case Number(n) => Bare(e.key, Printed(n))
  }

  function Printings(es: seq<Entry>): seq<Field> {
    if es == [] then [] else [Printing(es[0])] + Printings(es[1..])
  }

  /** The line that a logger writes for the entries. */
  function Written(es: seq<Entry>): string { ObjectText(Printings(es)) }

  predicate Named(es: seq<Entry>) { forall e <- es :: Identifier(e.key) }

  /** The first text under the key. */
  function WordsOf(es: seq<Entry>, key: string): Option<string> {
    if es == [] then None
    else if es[0].key == key && es[0].value.Words? then Some(es[0].value.text)
    else WordsOf(es[1..], key)
  }

  /** The first value under the key, if it is a number of at most 18 digits. */
  function NumberOf(es: seq<Entry>, key: string): Option<int> {
    if es == [] then None
    else if es[0].key == key then
      (match es[0].value
       case Number(n) => if -1_000_000_000_000_000_000 < n < 1_000_000_000_000_000_000 then Some(n) else None
       case Words(_) => None)
    else NumberOf(es[1..], key)
  }

  lemma PrintingHolds(e: Entry)
    requires Identifier(e.key)
    ensures WellFormed(Printing(e))
  {
    hide Identifier;
    match e.value
    case Words(text) => EscapedReadsBack(text);
    case Number(n) => NumeralIsToken(n);
  }

  lemma NumeralIsToken(n: int)
    ensures Printed(n) != "" && '"' !in Printed(n)
  {
    hide Decimal;
    DecimalDenotes(if n < 0 then -n else n);
    var digits := Decimal(if n < 0 then -n else n);
    assert '"' !in digits;
  }

  lemma {:induction false} PrintingsHold(es: seq<Entry>)
    requires Named(es)
    ensures forall f <- Printings(es) :: WellFormed(f)
  {
    hide WellFormed, Identifier, Printing;
    if es != [] {
      PrintingHolds(es[0]);
      PrintingsHold(es[1..]);
    }
  }

  lemma {:induction false} QuotedAmong(es: seq<Entry>, key: string)
    ensures FirstQuoted(Printings(es), key)
         == match WordsOf(es, key) case Some(text) => Some(Escaped(text)) case None => None
  {
    hide Escaped, Printed;
    if es != [] {
      assert Printings(es)[1..] == Printings(es[1..]);
      QuotedAmong(es[1..], key);
    }
  }

  /** Every text request reads the first text under its key. */
  lemma WordsAreRead(es: seq<Entry>, key: string)
    requires Named(es) && Identifier(key)
    ensures ExtractString(Written(es), key) == WordsOf(es, key)
  {
    hide Escaped, FirstQuoted, ExtractString, ObjectText, ReadsAs, WellFormed, Identifier;
    PrintingsHold(es);
    QuotedAmong(es, key);
    match WordsOf(es, key)
    case Some(text) =>
      EscapedReadsBack(text);
      ExtractFromObject(Printings(es), key, text);
    case None => ExtractFromObject(Printings(es), key, "");
  }

  lemma {:induction false} NumberAmong(es: seq<Entry>, key: string)
    ensures NumberIn(FirstNamed(Printings(es), key)) == NumberOf(es, key)
  {
    hide Escaped, Printed, ParseNumber;
    if es != [] {
      assert Printings(es)[1..] == Printings(es[1..]);
      NumberAmong(es[1..], key);
      match es[0].value
      case Number(n) =>
        PrintedReadsBack(n);
        Limit();
      case Words(_) =>
    }
  }

  lemma Limit()
    ensures Power10(18) == 1_000_000_000_000_000_000
  {
    assert Power10(6) == 1_000_000;
    assert Power10(12) == 1_000_000_000_000 by { assert Power10(9) == 1_000_000_000; }
    assert Power10(15) == 1_000_000_000_000_000;
  }

  /** Every number request reads the first value under its key. */
  lemma NumbersAreRead(es: seq<Entry>, key: string)
    requires Named(es) && Identifier(key)
    ensures ExtractNumber(Written(es), key) == NumberOf(es, key)
  {
    hide FirstNamed, ExtractNumber, ObjectText, WellFormed, Identifier, NumberIn;
    PrintingsHold(es);
    NumberAmong(es, key);
    NumberFromObject(Printings(es), key);
  }

  // ---------------------------------------------------------------- the record of a line

  function WordsOr(es: seq<Entry>, key: string, otherwise: string): string {
    match WordsOf(es, key) case Some(text) => text case None => otherwise
  }

  function NumberElse(es: seq<Entry>, key: string, otherwise: int): int {
    match NumberOf(es, key) case Some(n) => n case None => otherwise
  }

  lemma KindKeys()
    ensures Identifier("type") && Identifier("event_subtype") && Identifier("record_type")
  {
  }

  lemma MoreKindKeys()
    ensures Identifier("action") && Identifier("event_type") && Identifier("canonical_path")
  {
  }

  lemma PlaceKeys()
    ensures Identifier("path") && Identifier("mount_point") && Identifier("duration_seconds")
  {
  }

  lemma StampKeys()
    ensures Identifier("session_id") && Identifier("source_file") && Identifier("content_hash")
  {
  }

  lemma CommonKeys()
    ensures Identifier("t_unix_ms") && Identifier("pid") && Identifier("parent_pid")
  {
  }

  lemma NumberKeys()
    ensures Identifier("record_id") && Identifier("byte_offset")
  {
  }

  /** Times, processes and the writer's stamp are read from the same fields at every endpoint. Process ids are cut to 32
      bits. */
  lemma CommonFields(endpoint: string, es: seq<Entry>)
    requires Named(es)
    ensures var r := ParseEvidenceLine(endpoint, Written(es));
            && r.endpoint == endpoint && r.rawLine == Written(es)
            && r.time == NumberElse(es, "t_unix_ms", 0)
            && r.pid == NumberElse(es, "pid", 0) % 4294967296
            && r.parentPid == NumberElse(es, "parent_pid", 0) % 4294967296
            && r.nativeSessionId == WordsOr(es, "session_id", "")
            && r.nativeRecordId == (match NumberOf(es, "record_id") case Some(n) => Printed(n) case None => "")
            && r.nativeContentHash == WordsOr(es, "content_hash", "")
            && r.nativeSourceFile == WordsOr(es, "source_file", "")
            && r.nativeByteOffset == NumberElse(es, "byte_offset", -1)
  {
    hide ExtractString, ExtractNumber, Written, WordsOf, NumberOf, Identifier, Printed, NormalizeRecordType, BridgePath;
    StampKeys();
    CommonKeys();
    NumberKeys();
    NumbersAreRead(es, "t_unix_ms");
    NumbersAreRead(es, "pid");
    NumbersAreRead(es, "parent_pid");
    NumbersAreRead(es, "record_id");
    NumbersAreRead(es, "byte_offset");
    WordsAreRead(es, "session_id");
    WordsAreRead(es, "content_hash");
    WordsAreRead(es, "source_file");
  }

  /** Only a USB record has a mount point and a duration; the path of a process record is its
      canonical one, that of a file or application record its path, and the others have none. */
  lemma PlaceFields(endpoint: string, es: seq<Entry>)
    requires Named(es)
    ensures var r := ParseEvidenceLine(endpoint, Written(es));
            && r.mountPoint == (if endpoint == "port" then WordsOr(es, "mount_point", "") else "")
            && r.durationSeconds == (if endpoint == "port" then NumberElse(es, "duration_seconds", 0) else 0)
            && r.path == (if endpoint == "process" then WordsOr(es, "canonical_path", "")
                          else if endpoint in {"file_integrity", "application"} then WordsOr(es, "path", "")
                          else "")
  {
    hide ExtractString, ExtractNumber, Written, WordsOf, NumberOf, Identifier, Printed, NormalizeRecordType;
    MoreKindKeys();
    PlaceKeys();
    NumbersAreRead(es, "duration_seconds");
    WordsAreRead(es, "mount_point");
    WordsAreRead(es, "canonical_path");
    WordsAreRead(es, "path");
  }

  /** The kind of a record: the field that the endpoint's schema uses for it,
      falling back on `type`; a USB record is named by its `type` first. */
  lemma KindField(endpoint: string, es: seq<Entry>)
    requires Named(es)
    ensures var kind := ParseEvidenceLine(endpoint, Written(es)).recordType;
            var fallback := WordsOr(es, "type", "");
            kind == if endpoint == "process" then WordsOr(es, "event_subtype", fallback)
                    else if endpoint == "network" then WordsOr(es, "record_type", fallback)
                    else if endpoint == "file_integrity" then WordsOr(es, "action", fallback)
                    else if endpoint == "port" && fallback == "" then WordsOr(es, "event_type", "")
                    else fallback
  {
    hide ExtractString, ExtractNumber, Written, WordsOf, NumberOf, Identifier, Printed, BridgePath;
    KindKeys();
    MoreKindKeys();
    WordsAreRead(es, "type");
    WordsAreRead(es, "event_subtype");
    WordsAreRead(es, "record_type");
    WordsAreRead(es, "action");
    WordsAreRead(es, "event_type");
  }

  /** Status lines are those whose type or record type says so. */
  lemma StatusLines(es: seq<Entry>)
    requires Named(es)
    ensures IsOperationalStatusLine(Written(es))
       <==> || WordsOf(es, "type") in [Some("collector_health"), Some("startup"), Some("control_ack")]
            || WordsOf(es, "record_type") == Some("collector_health")
  {
    hide ExtractString, Written, WordsOf, Identifier;
    KindKeys();
    WordsAreRead(es, "type");
    WordsAreRead(es, "record_type");
  }
}
