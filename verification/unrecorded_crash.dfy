/** The crash that loses lines: it comes after a source has finished its bootstrap and before any
    checkpoint was written, so the next process bootstraps again and skips what was added in between. */
module UnrecordedCrash {
  import opened Text
  import opened JsonFields
  import opened JsonPrinter
  import opened JsonNumbers
  import opened LineSplit
  import opened TailerSpec
  import opened TailerTheorems
  import opened Evidence
  import opened UnifiedSpec
  import opened UnifiedHistory
  import opened UnifiedInvariant
  import opened Pipeline
  import opened AtLeastOnce
  import opened FixedOrigin

  // ---------------------------------------------------------------- a line that nobody has seen

  function Repeated(n: nat): string { seq(n, i => 'a') }

  lemma {:induction false} LongerThanAll(ids: set<string>) returns (n: nat)
    ensures n > 0 && forall id <- ids :: |id| < n
    decreases ids
  {
    if ids == {} {
      n := 1;
    } else {
      var id :| id in ids;
      var m := LongerThanAll(ids - {id});
      n := if |id| < m then m else |id| + 1;
    }
  }

  function HashField(n: nat): seq<Field> { [Quoted("content_hash", Repeated(n))] }

  function HashLine(n: nat): string { ObjectText(HashField(n)) }

  lemma HashWellFormed(n: nat)
    ensures (forall f <- HashField(n) :: WellFormed(f)) && ReadsAs(Repeated(n), Repeated(n))
  {
    hide ReadsAs, QuotesEscaped;
    PlainReadsBack(Repeated(n));
  }

  lemma OtherKeys(n: nat)
    ensures FirstQuoted(HashField(n), "content_hash") == Some(Repeated(n))
    ensures FirstQuoted(HashField(n), "session_id") == None && FirstNamed(HashField(n), "record_id") == None
    ensures Identifier("content_hash") && Identifier("session_id") && Identifier("record_id")
  {
    assert HashField(n)[1..] == [];
  }

  lemma IdentityOfHashLine(endpoint: string, n: nat)
    requires n > 0
    ensures ExactIdentity(KeptRecord(endpoint, HashLine(n))) == endpoint + "|content|" + Repeated(n)
  {
    hide ExtractString, ExtractNumber, ObjectText, NormalizeRecordType, BridgePath, WellFormed, ReadsAs, FirstQuoted,
         FirstNamed;
    HashWellFormed(n);
    OtherKeys(n);
    ExtractFromObject(HashField(n), "content_hash", Repeated(n));
    ExtractFromObject(HashField(n), "session_id", "");
    NumberFromObject(HashField(n), "record_id");
  }

  lemma Braced(line: string)
    requires |line| >= 2 && line[0] == '{' && line[|line| - 1] == '}'
    ensures LooksLikeObject(line) && Cleaned(line) == [line]
  {
  }

  lemma ObjectOfOne(text: string)
    requires OneLine(text)
    ensures var line := "{" + text + "}"; OneLine(line) && |line| >= 2 && line[0] == '{' && line[|line| - 1] == '}'
  {
  }

  lemma OneField(n: nat)
    ensures HashLine(n) == "{" + FieldText(HashField(n)[0]) + "}" && OneLine(FieldText(HashField(n)[0]))
  {
    var text := FieldText(HashField(n)[0]);
    assert text == "\"content_hash\":\"" + Repeated(n) + "\"";
    assert '\n' !in "\"content_hash\":\"";
    assert '\n' !in text;
  }

  lemma ShapeOfHashLine(n: nat)
    ensures LooksLikeObject(HashLine(n)) && OneLine(HashLine(n)) && Cleaned(HashLine(n)) == [HashLine(n)]
  {
    hide OneLine, Cleaned, LooksLikeObject, FieldText, HashLine;
    OneField(n);
    ObjectOfOne(FieldText(HashField(n)[0]));
    Braced(HashLine(n));
  }

  /** A line that is an object and whose identity is none of `ids`. */
  lemma UnseenLine(endpoint: string, ids: set<string>) returns (line: string)
    ensures LooksLikeObject(line) && OneLine(line) && Cleaned(line) == [line] && !Covered(endpoint, line, ids)
  {
    hide ExactIdentity, KeptRecord, LooksLikeObject, HashLine;
    var n := LongerThanAll(ids);
    line := HashLine(n);
    IdentityOfHashLine(endpoint, n);
    ShapeOfHashLine(n);
    assert |endpoint + "|content|" + Repeated(n)| >= n;
  }

  // ---------------------------------------------------------------- listings and a bootstrapping call

  lemma {:induction false} Listing(disk: Disk) returns (entries: seq<Entry>)
    ensures Lists(entries, disk) && forall e <- entries :: e.sized
    decreases |disk|
  {
    if disk == map[] {
      entries := [];
    } else {
      var p :| p in disk;
      Smaller(disk, p);
      var rest := Listing(disk - {p});
      entries := rest + [Entry(p, disk[p], true, 0)];
      ListedMore(rest, disk, p);
    }
  }

  lemma Smaller(disk: Disk, p: string)
    requires p in disk
    ensures |disk - {p}| < |disk|
  {
    assert (disk - {p}).Keys == disk.Keys - {p};
    assert |disk| == |disk.Keys| && |disk - {p}| == |(disk - {p}).Keys|;
  }

  lemma ListedMore(rest: seq<Entry>, disk: Disk, p: string)
    requires p in disk && Lists(rest, disk - {p})
    ensures Lists(rest + [Entry(p, disk[p], true, 0)], disk)
  {
    var entries := rest + [Entry(p, disk[p], true, 0)];
    forall i, j | 0 <= i < j < |entries| ensures entries[i].path != entries[j].path {
      assert i < |rest| && rest[i] in rest;
    }
    forall q <- disk ensures exists e <- entries :: e.path == q {
      if q == p {
        assert entries[|rest|] in entries;
      } else {
        assert q in disk - {p};
        var e :| e in rest && e.path == q;
        assert e in entries;
      }
    }
  }

  /** The first k listed files, and no others, are tracked from their ends. */
  ghost predicate Skipped(c: Call, entries: seq<Entry>, k: nat)
    requires k <= |entries|
  {
    && c.used == 0
    && (forall j :: 0 <= j < k ==> entries[j].path in c.files && c.files[entries[j].path] == AtEnd(entries[j]))
    && forall q <- c.files :: exists j :: 0 <= j < k && entries[j].path == q
  }

  function AtEnd(e: Entry): FileState { FileState(|e.content|, |e.content|, "") }

  lemma OneSkipped(c: Call, entries: seq<Entry>, maxBytes: nat, k: nat)
    requires k < |entries| && Skipped(c, entries, k) && maxBytes > 0 && entries[k].sized
    requires forall j :: 0 <= j < k ==> entries[j].path != entries[k].path
    ensures Skipped(ReadEntry(c, entries[k], true, k, |entries|, maxBytes), entries, k + 1)
  {
    hide ReadFile, Budget;
    assert entries[k].path !in c.files;
    var c' := ReadEntry(c, entries[k], true, k, |entries|, maxBytes);
    assert c'.files == c.files[entries[k].path := AtEnd(entries[k])];
  }

  /** Every listed file is skipped by a bootstrapping call. */
  lemma {:induction false} AllSkipped(t: Tailer, entries: seq<Entry>, maxBytes: nat, k: nat)
    requires t.bootstrap && t.files == map[] && maxBytes > 0 && DistinctPaths(entries) && k <= |entries|
    requires forall e <- entries :: e.sized
    ensures Skipped(ReadUpTo(t, entries, maxBytes, k), entries, k)
    decreases k
  {
    hide ReadEntry, Skipped;
    if k > 0 {
      AllSkipped(t, entries, maxBytes, k - 1);
      assert entries[k - 1] in entries;
      OneSkipped(ReadUpTo(t, entries, maxBytes, k - 1), entries, maxBytes, k - 1);
    } else {
      NoneSkipped(t, entries, maxBytes);
    }
  }

  lemma NoneSkipped(t: Tailer, entries: seq<Entry>, maxBytes: nat)
    requires t.files == map[]
    ensures Skipped(ReadUpTo(t, entries, maxBytes, 0), entries, 0)
  {
  }

  /** A saved bootstrapping call records the end of every file on disk. */
  lemma SkippedToTheEnd(t: Tailer, entries: seq<Entry>, disk: Disk, p: string)
    requires t == Start(None, true) && Lists(entries, disk) && (forall e <- entries :: e.sized) && p in disk
    ensures var t' := ReadNewLines(t, entries, 1, true).0;
            t'.checkpoint.Some? && p in t'.checkpoint.value && t'.checkpoint.value[p] == |disk[p]|
  {
    hide ReadUpTo;
    AllSkipped(t, entries, 1, |entries|);
    var e :| e in entries && e.path == p;
    var j :| 0 <= j < |entries| && entries[j] == e;
  }

  // ---------------------------------------------------------------- losing a line

  /** A path that is neither on disk nor known at the first bootstrap. */
  lemma NewPath(src: Source) returns (p: string)
    ensures p !in src.disk && (src.origin.Some? ==> p !in src.origin.value)
  {
    var n := LongerThanAll(src.disk.Keys + if src.origin.Some? then src.origin.value.Keys else {});
    p := Repeated(n);
    assert |p| == n;
  }

  lemma SkippedIsLost(src: Source, p: string, line: string, ids: set<string>)
    requires p in src.disk && src.disk[p] == line + "\n" && OriginAt(src, p) == 0
    requires OneLine(line) && Cleaned(line) == [line] && !Covered(src.endpoint, line, ids)
    ensures !Promised(src, p, |src.disk[p]|, ids)
  {
    hide Covered;
    var content := src.disk[p];
    assert content[0..|line|] == line && LineAt(content, 0, |line|);
    assert line in Cleaned(content[0..|line|]);
    assert !LineCovered(src, p, 0, |line|, ids);
  }

  lemma OneStep(sorter: seq<Candidate> -> seq<Candidate>, w: World, step: Step) returns (w': World)
    requires IsSorter(sorter) && WorldOk(w) && Enabled(w, step)
    ensures Next(sorter, w, step, w') && WorldOk(w')
  {
    hide WorldOk, IsSorter, Next, Enabled;
    w' := StepIsPossible(sorter, w, step);
    StepKeeps(sorter, w, step, w');
  }

  /** From a world in which source `i` has bootstrapped without a checkpoint, a crash,
      a new line and a saved bootstrap lead to a world that is not delivered. */
  lemma CrashLosesLine(sorter: seq<Candidate> -> seq<Candidate>, w: World, i: nat)
    returns (ws: seq<World>, steps: seq<Step>)
    requires IsSorter(sorter) && WorldOk(w) && i < |w.sources|
    requires !Recorded(w.sources[i]) && w.sources[i].origin.Some?
    ensures IsRun(sorter, ws, steps) && ws[0] == w && !Delivered(ws[|steps|])
    ensures |steps| == 3 && steps[0].Crash? && steps[1].Grow? && steps[2].Read?
  {
    hide WorldOk, IsSorter, Next, Promised, Covered, LooksLikeObject, Lists, GrowFile, OneLine, Cleaned, ReadNewLines,
         AfterPoll;
    var w1 := OneStep(sorter, w, Crash);
    CrashedSource(sorter, w, w1, i);
    var p := NewPath(w.sources[i]);
    var line := UnseenLine(w.sources[i].endpoint, w.archive);
    var w2 := OneStep(sorter, w1, Grow(i, p, line + "\n"));
    GrownNewFile(sorter, w1, w2, i, p, line);
    var entries := Listing(w2.sources[i].disk);
    var w3 := OneStep(sorter, w2, Read(i, entries, 1, true, 0));
    BootstrappedAgain(sorter, w2, w3, i, entries, p);
    SkippedIsLost(w3.sources[i], p, line, w3.archive);
    NotDelivered(w3, i, p);
    ws, steps := [w, w1, w2, w3], [Crash, Grow(i, p, line + "\n"), Read(i, entries, 1, true, 0)];
    ThreeSteps(sorter, ws, steps);
  }

  lemma ThreeSteps(sorter: seq<Candidate> -> seq<Candidate>, ws: seq<World>, steps: seq<Step>)
    requires |ws| == 4 && |steps| == 3
    requires Enabled(ws[0], steps[0]) && Enabled(ws[1], steps[1]) && Enabled(ws[2], steps[2])
    requires Next(sorter, ws[0], steps[0], ws[1]) && Next(sorter, ws[1], steps[1], ws[2])
             && Next(sorter, ws[2], steps[2], ws[3])
    ensures IsRun(sorter, ws, steps)
  {
    hide Next, Enabled;
  }

  lemma CrashedSource(sorter: seq<Candidate> -> seq<Candidate>, w: World, w': World, i: nat)
    requires Next(sorter, w, Crash, w') && i < |w.sources|
    ensures |w'.sources| == |w.sources| && w'.archive == w.archive
    ensures var src, src' := w.sources[i], w'.sources[i];
            && src'.t == Start(src.t.checkpoint, true) && src'.disk == src.disk && src'.origin == src.origin
            && src'.endpoint == src.endpoint
  {
  }

  lemma GrownNewFile(sorter: seq<Candidate> -> seq<Candidate>, w: World, w': World, i: nat, p: string, line: string)
    requires Next(sorter, w, Grow(i, p, line + "\n"), w') && i < |w.sources| && p !in w.sources[i].disk
    ensures |w'.sources| == |w.sources| && w'.archive == w.archive
    ensures var src, src' := w.sources[i], w'.sources[i];
            && src'.t == src.t && src'.origin == src.origin && src'.endpoint == src.endpoint
            && p in src'.disk && src'.disk[p] == line + "\n"
  {
  }

  lemma BootstrappedAgain(sorter: seq<Candidate> -> seq<Candidate>, w: World, w': World, i: nat, entries: seq<Entry>,
                          p: string)
    requires Next(sorter, w, Read(i, entries, 1, true, 0), w') && i < |w.sources|
    requires w.sources[i].t == Start(None, true) && w.sources[i].origin.Some? && p in w.sources[i].disk
    requires Lists(entries, w.sources[i].disk) && forall e <- entries :: e.sized
    ensures |w'.sources| == |w.sources| && w'.archive == w.archive
    ensures var src, src' := w.sources[i], w'.sources[i];
            && src'.disk == src.disk && src'.origin == src.origin && src'.endpoint == src.endpoint
            && src'.t.checkpoint.Some? && p in src'.t.checkpoint.value && src'.t.checkpoint.value[p] == |src.disk[p]|
  {
    hide Lists, ReadUpTo, Inv, IngestAll, AcceptedOf;
    SkippedToTheEnd(w.sources[i].t, entries, w.sources[i].disk, p);
  }

  lemma NotDelivered(w: World, i: nat, p: string)
    requires i < |w.sources| && w.sources[i].t.checkpoint.Some? && p in w.sources[i].t.checkpoint.value
    requires !Promised(w.sources[i], p, w.sources[i].t.checkpoint.value[p], w.archive)
    ensures !Delivered(w)
  {
    hide Promised;
    assert w.sources[i] in w.sources;
  }

  // ---------------------------------------------------------------- the exact condition

  /** A continuation that begins with a crash and has no other. */
  ghost predicate AfterCrash(sorter: seq<Candidate> -> seq<Candidate>, w: World, ws: seq<World>, steps: seq<Step>) {
    && IsRun(sorter, ws, steps) && ws[0] == w && steps != [] && steps[0].Crash?
    && forall j :: 1 <= j < |steps| ==> !steps[j].Crash?
  }

  /** After any run that has been clean so far: a crash now is harmless, in that whatever is appended,
      read, drained and committed afterwards everything a checkpoint skips has been delivered, if and
      only if every source that has finished its bootstrap has a written checkpoint. */
  lemma CrashIsHarmlessExactly(sorter: seq<Candidate> -> seq<Candidate>, past: seq<World>, done: seq<Step>, w: World)
    requires IsSorter(sorter) && CleanRun(sorter, past, done) && w == past[|done|]
    ensures AllRecorded(w) <==>
              forall ws, steps :: AfterCrash(sorter, w, ws, steps) ==> Delivered(ws[|steps|])
  {
    hide WorldOk, IsSorter, Next, Enabled, FirstStart, AllAnchored, Delivered, Recorded;
    FirstStartIsSound(past[0]);
    FirstAnchored(past[0]);
    CleanRunKeeps(sorter, past, done, |done|);
    if AllRecorded(w) {
      forall ws, steps | AfterCrash(sorter, w, ws, steps) ensures Delivered(ws[|steps|]) {
        CleanRunKeeps(sorter, ws, steps, |steps|);
        AnchoredDelivers(ws[|steps|]);
      }
    } else {
      var i :| 0 <= i < |w.sources| && !Recorded(w.sources[i]);
      UnrecordedHasOrigin(w, i);
      var ws, steps := CrashLosesLine(sorter, w, i);
      assert AfterCrash(sorter, w, ws, steps);
    }
  }

  lemma UnrecordedHasOrigin(w: World, i: nat)
    requires AllAnchored(w) && i < |w.sources| && !Recorded(w.sources[i])
    ensures w.sources[i].origin.Some?
  {
    assert Anchored(w.sources[i]);
  }

  // ---------------------------------------------------------------- a whole run that loses a line

  const LINE: string := "{}"
  const FILE: Entry := Entry("a", LINE + "\n", true, 3)

  lemma LineShape()
    ensures LooksLikeObject(LINE) && OneLine(LINE) && Cleaned(LINE) == [LINE] && CompleteLines(LINE + "\n") == [LINE]
    ensures Unfinished(LINE + "\n") == ""
  {
    var text := LINE + "\n";
    assert text[..2] == LINE && text[3..] == "" && text[2] == '\n';
    LineStarts(text, 2);
    LinesOf(text);
    LinesOf("");
  }

  function Beginning(endpoint: string): World {
    World([Source(endpoint, map[], Start(None, true), map[], map[], None)], EMPTY, History([], map[], [], []), {})
  }

  /** The first call finds no file, and its checkpoint is not written. */
  lemma FirstRead(sorter: seq<Candidate> -> seq<Candidate>, endpoint: string, w: World)
    requires Next(sorter, Beginning(endpoint), Read(0, [], 1, false, 0), w)
    ensures |w.sources| == 1 && w.archive == {} && w.engine == EMPTY && w.h.accepted == []
    ensures w.sources[0] == Source(endpoint, map[], Tailer(map[], false, 0, None), map[], map[], Some(map[]))
  {
    hide Inv, Ingest;
    var t := Start(None, true);
    assert ReadUpTo(t, [], 1, 0) == Call(map[], 0, [], 0);
  }

  /** The second call reads the line, and the engine accepts it. */
  lemma SecondRead(sorter: seq<Candidate> -> seq<Candidate>, endpoint: string, w: World, w': World)
    requires |w.sources| == 1 && w.archive == {} && w.engine == EMPTY && w.h.accepted == []
    requires w.sources[0] == Source(endpoint, map["a" := LINE + "\n"], Tailer(map[], false, 0, None), map[], map[],
                                    Some(map[]))
    requires Next(sorter, w, Read(0, [FILE], 3, false, 0), w')
    ensures ReadNewLines(w.sources[0].t, [FILE], 3, false).1 == [LINE]
    ensures |w'.sources| == 1 && w'.archive == {} && |w'.h.accepted| == 1
    ensures var src := w'.sources[0];
            !Recorded(src) && src.origin == Some(map[]) && src.disk == w.sources[0].disk && src.endpoint == endpoint
  {
    hide Inv, Ingest, LINE, CompleteLines, Unfinished, Observe;
    var t := w.sources[0].t;
    TheLineIsRead(t);
    TheLineIsAccepted(sorter, endpoint);
  }

  lemma TheLineIsRead(t: Tailer)
    requires t == Tailer(map[], false, 0, None)
    ensures ReadNewLines(t, [FILE], 3, false).1 == [LINE]
    ensures var t' := ReadNewLines(t, [FILE], 3, false).0; !t'.bootstrap && t'.checkpoint == None
  {
    hide CompleteLines, Unfinished;
    LineShape();
    var content := LINE + "\n";
    assert "" + content[0..3] == content;
    assert ReadFile(FRESH, content, 3, 3).lines == [LINE];
    assert ReadUpTo(t, [FILE], 3, 0) == Call(map[], 0, [], 0);
    assert ReadUpTo(t, [FILE], 3, 1).lines == [] + [LINE];
  }

  lemma TheLineIsAccepted(sorter: seq<Candidate> -> seq<Candidate>, endpoint: string)
    ensures |AcceptedOf(sorter, EMPTY, endpoint, [LINE], 0)| == 1
  {
    hide Place, ExactIdentity, Observe, Remember, LooksLikeObject;
    LineShape();
    assert [LINE][..0] == [];
    assert AcceptedOf(sorter, EMPTY, endpoint, [], 0) == [] && IngestAll(sorter, EMPTY, endpoint, [], 0) == EMPTY;
    assert LINE != "";
  }

  /** A whole run from the first start: the line is read and accepted, the process crashes before its group is
      logged, and the next process, finding no checkpoint, bootstraps again and records an offset behind the line. */
  lemma LinesCanBeLost(sorter: seq<Candidate> -> seq<Candidate>, endpoint: string)
    returns (ws: seq<World>, steps: seq<Step>)
    requires IsSorter(sorter)
    ensures IsRun(sorter, ws, steps) && FirstStart(ws[0]) && |ws| == 6
    ensures steps == [Read(0, [], 1, false, 0), Grow(0, "a", LINE + "\n"), Read(0, [FILE], 3, false, 0), Crash,
                      Read(0, [FILE], 1, true, 0)]
    ensures |ws[2].sources| == 1 && ReadNewLines(ws[2].sources[0].t, [FILE], 3, false).1 == [LINE]
            && |ws[3].h.accepted| == 1
    ensures !Delivered(ws[5])
  {
    hide WorldOk, IsSorter, Next, Promised, Covered, Lists, ReadNewLines, LINE, AcceptedIds;
    var w0 := Beginning(endpoint);
    StartsFresh(endpoint);
    NothingListed();
    var w1 := OneStep(sorter, w0, Read(0, [], 1, false, 0));
    FirstRead(sorter, endpoint, w1);
    var w2 := OneStep(sorter, w1, Grow(0, "a", LINE + "\n"));
    OneGrown(sorter, endpoint, w1, w2);
    OneListed();
    var w3 := OneStep(sorter, w2, Read(0, [FILE], 3, false, 0));
    SecondRead(sorter, endpoint, w2, w3);
    var w4 := OneStep(sorter, w3, Crash);
    CrashedSource(sorter, w3, w4, 0);
    var w5 := OneStep(sorter, w4, Read(0, [FILE], 1, true, 0));
    BootstrappedAgain(sorter, w4, w5, 0, [FILE], "a");
    LineShape();
    NoneCovers(endpoint);
    SkippedIsLost(w5.sources[0], "a", LINE, w5.archive);
    NotDelivered(w5, 0, "a");
    ws := [w0, w1, w2, w3, w4, w5];
    steps := [Read(0, [], 1, false, 0), Grow(0, "a", LINE + "\n"), Read(0, [FILE], 3, false, 0), Crash,
              Read(0, [FILE], 1, true, 0)];
    FiveSteps(sorter, ws, steps);
  }

  lemma StartsFresh(endpoint: string)
    ensures FirstStart(Beginning(endpoint)) && WorldOk(Beginning(endpoint))
  {
    hide WorldOk;
    FirstStartIsSound(Beginning(endpoint));
  }

  lemma NothingListed()
    ensures Lists([], map[])
  {
  }

  lemma OneListed()
    ensures Lists([FILE], map["a" := LINE + "\n"])
  {
    hide LINE;
    assert FILE in [FILE];
  }

  lemma NoneCovers(endpoint: string)
    ensures !Covered(endpoint, LINE, {})
  {
    hide ExactIdentity, KeptRecord;
    LineShape();
  }

  lemma OneGrown(sorter: seq<Candidate> -> seq<Candidate>, endpoint: string, w: World, w': World)
    requires |w.sources| == 1 && w.archive == {} && w.engine == EMPTY && w.h.accepted == []
    requires w.sources[0] == Source(endpoint, map[], Tailer(map[], false, 0, None), map[], map[], Some(map[]))
    requires Next(sorter, w, Grow(0, "a", LINE + "\n"), w')
    ensures |w'.sources| == 1 && w'.archive == {} && w'.engine == EMPTY && w'.h.accepted == []
    ensures w'.sources[0] == Source(endpoint, map["a" := LINE + "\n"], Tailer(map[], false, 0, None), map[], map[],
                                    Some(map[]))
  {
    hide LINE;
    assert "" + (LINE + "\n") == LINE + "\n";
  }

  lemma FiveSteps(sorter: seq<Candidate> -> seq<Candidate>, ws: seq<World>, steps: seq<Step>)
    requires |ws| == 6 && |steps| == 5
    requires Enabled(ws[0], steps[0]) && Enabled(ws[1], steps[1]) && Enabled(ws[2], steps[2])
             && Enabled(ws[3], steps[3])
    requires Enabled(ws[4], steps[4]) && Next(sorter, ws[4], steps[4], ws[5])
    requires Next(sorter, ws[0], steps[0], ws[1]) && Next(sorter, ws[1], steps[1], ws[2])
    requires Next(sorter, ws[2], steps[2], ws[3]) && Next(sorter, ws[3], steps[3], ws[4])
    ensures IsRun(sorter, ws, steps)
  {
    hide Next, Enabled;
  }
}
