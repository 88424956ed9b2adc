/** Lines as loggers write them, each ended by a newline or by a carriage return and a newline, and what a reader of the
    log gets back. */
module LinePrinter {
  import opened Text
  import opened LineSplit
  import opened TailerSpec
  import opened TailerTheorems

  /** A line and whether it was written in text mode, which puts a carriage return before the newline. */
  datatype Printed = Printed(line: string, textMode: bool)

  /** The line holds no newline, and its end cannot be taken for that of text mode. */
  predicate Printable(p: Printed) {
    && OneLine(p.line)
    && (p.textMode || p.line == "" || p.line[|p.line| - 1] != '\r')
  }

  predicate AllPrintable(ps: seq<Printed>) { forall p <- ps :: Printable(p) }

  function Ending(p: Printed): string { if p.textMode then "\r\n" else "\n" }

  /** The log file. */
  function Document(ps: seq<Printed>): string {
    if ps == [] then "" else ps[0].line + Ending(ps[0]) + Document(ps[1..])
  }

  /** The lines that say something, in order. */
  function Said(ps: seq<Printed>): seq<string> {
    if ps == [] then [] else (if ps[0].line == "" then [] else [ps[0].line]) + Said(ps[1..])
  }

  lemma OneEnds(text: string, rest: string)
    requires OneLine(text)
    ensures CompleteLines(text + "\n" + rest) == Cleaned(text) + CompleteLines(rest)
    ensures Unfinished(text + "\n" + rest) == Unfinished(rest)
  {
    hide CompleteLines, Unfinished, Cleaned;
    var whole := text + "\n" + rest;
    assert whole[|text|] == '\n' && forall i :: 0 <= i < |text| ==> whole[i] == text[i];
    assert LineEnd(whole) == |text|;
    assert whole[..|text|] == text && whole[|text| + 1..] == rest;
    LinesOf(whole);
  }

  lemma OneSaid(p: Printed)
    requires Printable(p)
    ensures OneLine(p.line + if p.textMode then "\r" else "")
    ensures Cleaned(p.line + if p.textMode then "\r" else "") == if p.line == "" then [] else [p.line]
  {
    if p.textMode {
      var text := p.line + "\r";
      assert text[|text| - 1] == '\r' && text[..|text| - 1] == p.line;
    } else {
      assert p.line + "" == p.line;
    }
  }

  /** The reader inverts the writers, whichever line endings they mix: exactly the lines that say something come back,
      in order and unchanged; blank lines of either kind add nothing, and nothing is left over. */
  lemma {:induction false} DocumentReadsBack(ps: seq<Printed>)
    requires AllPrintable(ps)
    ensures CompleteLines(Document(ps)) == Said(ps) && Unfinished(Document(ps)) == ""
    decreases |ps|
  {
    hide CompleteLines, Unfinished, Cleaned, OneLine;
    if ps == [] {
      OneLineHasNone("") by { NoNewlineInNothing(); }
    } else {
      DocumentReadsBack(ps[1..]);
      var p, rest := ps[0], Document(ps[1..]);
      var text := p.line + if p.textMode then "\r" else "";
      OneSaid(p);
      assert p.line + Ending(p) + rest == text + "\n" + rest by { EndingParts(p, rest); }
      OneEnds(text, rest);
    }
  }

  lemma NoNewlineInNothing()
    ensures OneLine("")
  {
  }

  lemma EndingParts(p: Printed, rest: string)
    ensures p.line + Ending(p) + rest == (p.line + if p.textMode then "\r" else "") + "\n" + rest
  {
    assert "\r\n" == "\r" + "\n";
  }

  /** Where every line says something, the lines come back as they were. */
  lemma {:induction false} AllSaid(ps: seq<Printed>)
    requires forall p <- ps :: p.line != ""
    ensures |Said(ps)| == |ps| && forall i :: 0 <= i < |ps| ==> Said(ps)[i] == ps[i].line
  {
    if ps != [] { AllSaid(ps[1..]); }
  }

  // ---------------------------------------------------------------- what a tailer returns for such logs

  /** Every file listed holds a log, and will be served in full. */
  ghost predicate HoldLogs(entries: seq<Entry>, logs: seq<seq<Printed>>) {
    && |logs| == |entries|
    && forall i :: 0 <= i < |entries| ==> AllPrintable(logs[i]) && entries[i].content == Document(logs[i])
  }

  function AllOf(logs: seq<seq<Printed>>): seq<string> {
    if logs == [] then [] else AllOf(logs[..|logs| - 1]) + Said(logs[|logs| - 1])
  }

  /** Read to its end by this call, for the first time. */
  predicate ReadWhole(before: map<string, FileState>, after: map<string, FileState>, e: Entry) {
    e.path !in before && e.path in after && after[e.path].lastOffset == |e.content|
  }

  /** A first call that comes to the end of every listed log returns exactly what the logs say, log by log. */
  lemma LogsAreReturned(t: Tailer, entries: seq<Entry>, maxBytes: nat, saved: bool, disk: Disk, logs: seq<seq<Printed>>)
    requires ListsSome(entries, disk) && HoldLogs(entries, logs) && !t.bootstrap && maxBytes > 0
    requires forall e <- entries :: ReadWhole(t.files, ReadNewLines(t, entries, maxBytes, saved).0.files, e)
    ensures ReadNewLines(t, entries, maxBytes, saved).1 == AllOf(logs)
  {
    hide ReadNewLines, FileOk, Segments, DiskKept, HoldLogs, AllKnown;
    var files := ReadNewLines(t, entries, maxBytes, saved).0.files;
    FirstIsKnown(t, entries, map[]);
    ListedReads(t, entries, maxBytes, saved, disk, map[]);
    SegmentsOfLogs(t, files, entries, disk, logs);
  }

  lemma FirstIsKnown(t: Tailer, entries: seq<Entry>, start: map<string, nat>)
    requires forall e <- entries :: e.path !in t.files
    ensures AllKnown(t, entries, start)
  {
  }

  lemma {:induction false} SegmentsOfLogs(t: Tailer, files: map<string, FileState>, entries: seq<Entry>, disk: Disk,
                                          logs: seq<seq<Printed>>)
    requires HoldLogs(entries, logs) && !t.bootstrap
    requires forall e <- entries :: ReadWhole(t.files, files, e) && e.path in disk && e.content == disk[e.path]
                                    && DiskKept(t, files, e.path, disk, map[])
    ensures Segments(t.files, files, entries, t.bootstrap) == AllOf(logs)
    decreases |entries|
  {
    hide FileOk, DiskKept, Segment, AllPrintable, Document, Said;
    if entries != [] {
      var n := |entries| - 1;
      assert entries[n] in entries;
      SegmentsOfLogs(t, files, entries[..n], disk, logs[..n]);
      SegmentOfLog(t, files, entries[n], disk, logs[n]);
    }
  }

  lemma SegmentOfLog(t: Tailer, files: map<string, FileState>, e: Entry, disk: Disk, log: seq<Printed>)
    requires ReadWhole(t.files, files, e) && e.path in disk && e.content == disk[e.path]
    requires DiskKept(t, files, e.path, disk, map[]) && !t.bootstrap
    requires AllPrintable(log) && e.content == Document(log)
    ensures Segment(t.files, files, e, t.bootstrap) == Said(log)
  {
    hide CompleteLines, OneLine, AllPrintable, Document, Said;
    var f := files[e.path];
    assert FileOk(f, e.content, 0);
    ReadToTheEnd(f, e.content, 0);
    assert e.content[0..] == e.content;
    DocumentReadsBack(log);
  }

  /** One log within the byte limit: one call returns what it says. */
  lemma OneLogIsReturned(t: Tailer, e: Entry, maxBytes: nat, saved: bool, log: seq<Printed>)
    requires e.sized && e.path !in t.files && !t.bootstrap && |e.content| <= maxBytes && |e.content| <= e.served
    requires maxBytes > 0 && AllPrintable(log) && e.content == Document(log)
    ensures ReadNewLines(t, [e], maxBytes, saved).1 == Said(log)
  {
    hide CompleteLines, Unfinished, AllPrintable, Document, Said, SafeOffsets;
    assert ReadUpTo(t, [e], maxBytes, 0) == Call(t.files, t.bootstrapped, [], 0);
    assert ReadNewLines(t, [e], maxBytes, saved).1 == ReadUpTo(t, [e], maxBytes, 1).lines;
    var r := ReadFile(FRESH, e.content, maxBytes, e.served);
    assert ReadUpTo(t, [e], maxBytes, 1).lines == [] + r.lines;
    DocumentReadsBack(log);
    if e.content == "" {
      OneLineHasNone("");
    } else {
      assert "" + e.content[0..|e.content|] == e.content;
    }
  }

  /** Over a whole run: a file that is a log from where its reading started, and has been read to its end, has delivered
      exactly what the log says. */
  lemma LogIsDelivered(r: TailRun, events: seq<TailEvent>, p: string, log: seq<Printed>)
    requires TailInv(r) && forall i :: 0 <= i < |events| ==> Possible(RunTail(r, events[..i]), events[i])
    requires var r' := RunTail(r, events);
             && p in r'.t.files && p !in r'.stale && p in r'.disk && p in r'.start && r'.start[p] <= |r'.disk[p]|
             && r'.t.files[p].lastOffset == |r'.disk[p]|
             && AllPrintable(log) && r'.disk[p][r'.start[p]..] == Document(log)
    ensures var r' := RunTail(r, events); p in r'.delivered && r'.delivered[p] == Said(log)
  {
    hide RunTail, Possible, AllPrintable, Document, Said, CompleteLines;
    EveryTailRunIsExact(r, events);
    var r' := RunTail(r, events);
    assert Fresh(r', p);
    ReadToTheEnd(r'.t.files[p], r'.disk[p], r'.start[p]);
    DocumentReadsBack(log);
  }
}
