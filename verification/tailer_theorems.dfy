/** What tailing guarantees: an incremental reader that returns exactly the lines of the file. */
module TailerTheorems {
  import opened Text
  import opened LineSplit
  import opened TailerSpec

  // ---------------------------------------------------------------- one file

  /** The reader of a file it started at `start`: the safe offset is a line boundary, and the pending text is
      exactly the newline-free bytes between the safe offset and what was read. */
  ghost predicate FileOk(f: FileState, content: string, start: nat) {
    && start <= f.safeOffset <= f.lastOffset <= |content|
    && f.pending == content[f.safeOffset..f.lastOffset] && OneLine(f.pending)
    && (f.safeOffset == start || content[f.safeOffset - 1] == '\n')
  }

  lemma FileOkAfterAppend(f: FileState, content: string, more: string, start: nat)
    requires FileOk(f, content, start)
    ensures FileOk(f, content + more, start)
    ensures (content + more)[start..f.safeOffset] == content[start..f.safeOffset]
  {
    assert (content + more)[f.safeOffset..f.lastOffset] == content[f.safeOffset..f.lastOffset];
  }

  /** The pending text and the newly read bytes are one stretch of the file. */
  lemma BufferIsStretch(content: string, a: nat, b: nat, c: nat)
    requires a <= b <= c <= |content|
    ensures content[a..b] + content[b..c] == content[a..c]
  {
  }

  /** One read of one file: the lines returned are those between the old and the new safe offset,
      and as many bytes are consumed as are unread, granted and served. */
  lemma ReadFileKeeps(f: FileState, content: string, start: nat, budget: nat, served: nat)
    requires FileOk(f, content, start)
    ensures var r := ReadFile(f, content, budget, served);
            && FileOk(r.file, content, start)
            && f.safeOffset <= r.file.safeOffset
            && r.lines == CompleteLines(content[f.safeOffset..r.file.safeOffset])
            && r.got == Min(Min(|content| - f.lastOffset, budget), served)
            && r.file.lastOffset == f.lastOffset + r.got
  {
    hide CompleteLines, Unfinished, OneLine;
    var r := ReadFile(f, content, budget, served);
    if r.got == 0 {
      assert content[f.safeOffset..f.safeOffset] == "";
      OneLineHasNone("");
    } else {
      var last := f.lastOffset + r.got;
      BufferIsStretch(content, f.safeOffset, f.lastOffset, last);
      SplitStretch(content, f.safeOffset, last, start);
    }
  }

  lemma SplitStretch(content: string, from: nat, to: nat, start: nat)
    requires start <= from <= to <= |content|
    requires from == start || content[from - 1] == '\n'
    ensures var rest := Unfinished(content[from..to]); var safe := to - |rest|;
            && from <= safe && rest == content[safe..to] && OneLine(rest)
            && (safe == start || content[safe - 1] == '\n')
            && CompleteLines(content[from..to]) == CompleteLines(content[from..safe])
  {
    hide CompleteLines, Unfinished;
    var rest := Unfinished(content[from..to]);
    var safe := to - |rest|;
    RestOfStretch(content, from, to);
    UnfinishedIsSuffix(content[from..to]);
    BufferIsStretch(content, from, safe, to);
    hide OneLine;
    FinishedAndRest(content[from..safe], rest);
  }

  lemma RestOfStretch(content: string, from: nat, to: nat)
    requires from <= to <= |content|
    ensures var rest := Unfinished(content[from..to]); var safe := to - |rest|;
            && from <= safe && rest == content[safe..to]
            && (safe == from || (content[safe - 1] == '\n' && content[from..safe][safe - from - 1] == '\n'))
  {
    hide OneLine, Unfinished;
    var text := content[from..to];
    UnfinishedIsSuffix(text);
    var rest := Unfinished(text);
    var safe := to - |rest|;
    assert text[|text| - |rest|..] == content[safe..to];
    assert safe > from ==> text[|text| - |rest| - 1] == content[safe - 1];
  }

  /** Consecutive stretches between line boundaries give consecutive lines. */
  lemma LinesGrow(content: string, start: nat, a: nat, b: nat)
    requires start <= a <= b <= |content|
    requires a == start || content[a - 1] == '\n'
    ensures CompleteLines(content[start..b]) == CompleteLines(content[start..a]) + CompleteLines(content[a..b])
  {
    hide CompleteLines;
    var done := content[start..a];
    BufferIsStretch(content, start, a, b);
    assert done != "" ==> done[|done| - 1] == content[a - 1];
    SplitAtNewline(done, content[a..b]);
  }

  /** A file that has been read to its end has delivered every complete line after `start`, and nothing else. */
  lemma ReadToTheEnd(f: FileState, content: string, start: nat)
    requires FileOk(f, content, start) && f.lastOffset == |content|
    ensures CompleteLines(content[start..f.safeOffset]) == CompleteLines(content[start..])
    ensures f.pending == Unfinished(content[start..])
  {
    hide CompleteLines;
    var done := content[start..f.safeOffset];
    BufferIsStretch(content, start, f.safeOffset, |content|);
    assert content[start..|content|] == content[start..];
    assert done != "" ==> done[|done| - 1] == content[f.safeOffset - 1];
    FinishedAndRest(done, f.pending);
  }

  // ---------------------------------------------------------------- one call over many files

  predicate DistinctPaths(entries: seq<Entry>) {
    forall i, j :: 0 <= i < j < |entries| ==> entries[i].path != entries[j].path
  }

  /** Where an untracked file starts to be read: at its beginning, or at its end on a bootstrapping call. */
  function StartOf(e: Entry, bootstrap: bool): nat { if bootstrap then |e.content| else 0 }

  /** The file had become shorter than what was read of it, and was started over. */
  predicate Rewinds(before: map<string, FileState>, after: map<string, FileState>, content: string, p: string) {
    p in before && p in after && after[p].lastOffset <= |content| < before[p].lastOffset
  }

  /** Where the lines begin that a call owes for one file. */
  function From(before: map<string, FileState>, after: map<string, FileState>, e: Entry, bootstrap: bool): nat {
    if e.path !in before then StartOf(e, bootstrap)
    else if Rewinds(before, after, e.content, e.path) then 0
    else before[e.path].safeOffset
  }

  /** The lines a call owes for one file, given its state before and after. */
  function Segment(before: map<string, FileState>, after: map<string, FileState>, e: Entry,
                   bootstrap: bool): seq<string> {
    var from := From(before, after, e, bootstrap);
    if e.path in after && from <= after[e.path].safeOffset <= |e.content|
    then CompleteLines(e.content[from..after[e.path].safeOffset]) else []
  }

  function Segments(before: map<string, FileState>, after: map<string, FileState>, entries: seq<Entry>,
                    bootstrap: bool): seq<string> {
    if entries == [] then []
    else
      var front := entries[..|entries| - 1];
      Segments(before, after, front, bootstrap) + Segment(before, after, entries[|entries| - 1], bootstrap)
  }

  lemma {:induction false} SegmentsIgnoreOthers(before: map<string, FileState>, a: map<string, FileState>,
                                                b: map<string, FileState>, entries: seq<Entry>, bootstrap: bool)
    requires forall e <- entries :: SameFile(a, b, e.path)
    ensures Segments(before, a, entries, bootstrap) == Segments(before, b, entries, bootstrap)
  {
    hide Segment, SameFile;
    if entries != [] {
      var last := entries[|entries| - 1];
      SegmentsIgnoreOthers(before, a, b, entries[..|entries| - 1], bootstrap);
      assert last in entries;
      SegmentIgnoresOthers(before, a, b, last, bootstrap);
    }
  }

  lemma SegmentIgnoresOthers(before: map<string, FileState>, a: map<string, FileState>,
                             b: map<string, FileState>, e: Entry, bootstrap: bool)
    requires SameFile(a, b, e.path)
    ensures Segment(before, a, e, bootstrap) == Segment(before, b, e, bootstrap)
  {
    hide CompleteLines;
  }

  /** What is on disk: the bytes of every file the tailer watches. */
  type Disk = map<string, string>

  /** A listing names files on disk, each once, with its bytes; it may miss some. */
  ghost predicate ListsSome(entries: seq<Entry>, disk: Disk) {
    DistinctPaths(entries) && forall e <- entries :: e.path in disk && e.content == disk[e.path]
  }

  /** A listing that misses none. */
  ghost predicate Lists(entries: seq<Entry>, disk: Disk) {
    ListsSome(entries, disk) && forall p <- disk :: exists e <- entries :: e.path == p
  }

  /** Every tracked file is on disk, was started at a known point and is read soundly from there. */
  ghost predicate FilesOk(files: map<string, FileState>, disk: Disk, start: map<string, nat>) {
    forall p <- files :: p in disk && p in start && FileOk(files[p], disk[p], start[p])
  }

  /** The file, if tracked, is read soundly from `start`, or is now shorter than what was read of it. */
  ghost predicate Known(files: map<string, FileState>, content: string, p: string, start: nat) {
    p in files ==> |content| < files[p].lastOffset || FileOk(files[p], content, start)
  }

  /** The starting point of a file after a call: one that is tracked for the
      first time, or started over, gets a new one. */
  function StartAt(start: map<string, nat>, before: map<string, FileState>, after: map<string, FileState>,
                   disk: Disk, bootstrap: bool, p: string): nat
  {
    if p in after && p !in before && p in disk then (if bootstrap then |disk[p]| else 0)
    else if p in disk && Rewinds(before, after, disk[p], p) then 0
    else if p in start then start[p] else 0
  }

  function StartsAfter(start: map<string, nat>, before: map<string, FileState>, after: map<string, FileState>,
                       disk: Disk, bootstrap: bool): map<string, nat>
  {
    map p | p in start.Keys + after.Keys :: StartAt(start, before, after, disk, bootstrap, p)
  }

  lemma FreshOk(content: string)
    ensures FileOk(FRESH, content, 0)
    ensures FileOk(FileState(|content|, |content|, ""), content, |content|)
  {
  }

  /** The file after a call: as before, or sound from its new starting point; its
      safe offset moves forward, or starts over. */
  ghost predicate FileKept(before: map<string, FileState>, after: map<string, FileState>, content: string, p: string,
                           start: nat)
  {
    && (p in before ==> p in after)
    && (p in after ==>
          || (p in before && after[p] == before[p])
          || (FileOk(after[p], content, start)
              && (p in before ==> Rewinds(before, after, content, p) || before[p].safeOffset <= after[p].safeOffset)))
  }

  /** Reading a file that has become shorter is reading a file that was never read. */
  lemma ShorterIsFresh(f: FileState, content: string, budget: nat, served: nat)
    requires |content| < f.lastOffset
    ensures ReadFile(f, content, budget, served) == ReadFile(FRESH, content, budget, served)
  {
    hide CompleteLines, Unfinished;
  }

  /** What a file holds before the last offset has no effect on a read that does not start over. */
  lemma BlindBefore(f: FileState, content: string, other: string, budget: nat, served: nat)
    requires |other| == |content| && |content| >= f.lastOffset && other[f.lastOffset..] == content[f.lastOffset..]
    ensures ReadFile(f, other, budget, served) == ReadFile(f, content, budget, served)
  {
    hide CompleteLines, Unfinished;
    var got := Min(Min(|content| - f.lastOffset, budget), served);
    assert content[f.lastOffset..][..got] == content[f.lastOffset..f.lastOffset + got];
    assert other[f.lastOffset..][..got] == other[f.lastOffset..f.lastOffset + got];
  }

  /** A replaced file is read as a new one exactly when it is shorter than what was read of it; otherwise
      the read goes on where it was, and whatever the new file holds before that point is missed. */
  lemma ReplacementIsNoticedExactly(f: FileState, content: string, budget: nat, served: nat)
    ensures |content| < f.lastOffset ==>
            ReadFile(f, content, budget, served) == ReadFile(FRESH, content, budget, served)
    ensures |content| >= f.lastOffset ==>
              && ReadFile(f, content, budget, served).file.lastOffset >= f.lastOffset
              && forall other: string ::
                   |other| == |content| && other[f.lastOffset..] == content[f.lastOffset..] ==>
                   ReadFile(f, other, budget, served) == ReadFile(f, content, budget, served)
  {
    if |content| < f.lastOffset {
      ShorterIsFresh(f, content, budget, served);
    } else {
      NeverBack(f, content, budget, served);
      hide ReadFile;
      forall other: string | |other| == |content| && other[f.lastOffset..] == content[f.lastOffset..]
        ensures ReadFile(f, other, budget, served) == ReadFile(f, content, budget, served)
      {
        BlindBefore(f, content, other, budget, served);
      }
    }
  }

  lemma NeverBack(f: FileState, content: string, budget: nat, served: nat)
    requires |content| >= f.lastOffset
    ensures ReadFile(f, content, budget, served).file.lastOffset >= f.lastOffset
  {
    hide CompleteLines, Unfinished;
  }

  /** One entry of the listing: its file is kept, its lines are appended, the other files are not touched. */
  lemma EntryKeeps(t: Tailer, c: Call, e: Entry, k: nat, n: nat, maxBytes: nat, disk: Disk, start: map<string, nat>)
    requires k < n && e.path in disk && e.content == disk[e.path] && SameFile(t.files, c.files, e.path)
    requires Known(t.files, e.content, e.path, StartIn(start, e.path))
    ensures var c' := ReadEntry(c, e, t.bootstrap, k, n, maxBytes);
            && FileKept(t.files, c'.files, e.content, e.path,
                        StartAt(start, t.files, c'.files, disk, t.bootstrap, e.path))
            && c'.lines == c.lines + Segment(t.files, c'.files, e, t.bootstrap)
            && Sets(c.files, c'.files, e.path)
            && c.used <= c'.used && (c.used <= maxBytes ==> c'.used <= maxBytes)
  {
    hide FileOk, CompleteLines, ReadFile, Min, Max;
    if c.used >= maxBytes || !e.sized {
      NothingRead(t, e, c);
    } else if e.path !in c.files && t.bootstrap {
      FreshOk(e.content);
      assert e.content[|e.content|..|e.content|] == "";
      OneLineHasNone("");
    } else {
      ReadKeeps(t, c, e, Budget(k, n, maxBytes - c.used), disk, start);
      UsedBound(StateOf(c.files, e.path), e.content, Budget(k, n, maxBytes - c.used), e.served);
      BudgetBound(k, n, maxBytes - c.used);
    }
  }

  /** Only the file at `p` is set. */
  predicate Sets(a: map<string, FileState>, b: map<string, FileState>, p: string) {
    b == if p in b then a[p := b[p]] else a
  }

  function StartIn(start: map<string, nat>, p: string): nat { if p in start then start[p] else 0 }

  lemma UsedBound(f: FileState, content: string, budget: nat, served: nat)
    ensures ReadFile(f, content, budget, served).got <= budget
  {
    hide CompleteLines, Unfinished;
  }

  lemma BudgetBound(k: nat, n: nat, remaining: nat)
    requires k < n
    ensures Budget(k, n, remaining) <= remaining
  {
  }

  lemma ReadKeeps(t: Tailer, c: Call, e: Entry, budget: nat, disk: Disk, start: map<string, nat>)
    requires e.path in disk && e.content == disk[e.path] && SameFile(t.files, c.files, e.path)
    requires Known(t.files, e.content, e.path, StartIn(start, e.path)) && (e.path in t.files || !t.bootstrap)
    ensures var r := ReadFile(StateOf(c.files, e.path), e.content, budget, e.served);
            var files := c.files[e.path := r.file];
            && FileKept(t.files, files, e.content, e.path, StartAt(start, t.files, files, disk, t.bootstrap, e.path))
            && r.lines == Segment(t.files, files, e, t.bootstrap)
  {
    hide FileOk, CompleteLines, ReadFile, Min;
    var f := StateOf(c.files, e.path);
    var r := ReadFile(f, e.content, budget, e.served);
    if e.path in t.files && |e.content| >= f.lastOffset {
      ReadFileKeeps(f, e.content, StartIn(start, e.path), budget, e.served);
      OffsetsInside(r.file, e.content, StartIn(start, e.path));
    } else {
      FreshOk(e.content);
      if e.path in t.files { ShorterIsFresh(f, e.content, budget, e.served); }
      ReadFileKeeps(FRESH, e.content, 0, budget, e.served);
      OffsetsInside(r.file, e.content, 0);
    }
  }

  lemma OffsetsInside(f: FileState, content: string, start: nat)
    requires FileOk(f, content, start)
    ensures f.safeOffset <= f.lastOffset <= |content|
  {
  }

  lemma NothingRead(t: Tailer, e: Entry, c: Call)
    requires SameFile(t.files, c.files, e.path)
    ensures Segment(t.files, c.files, e, t.bootstrap) == []
    ensures c.lines + [] == c.lines
  {
    if e.path in c.files && c.files[e.path].safeOffset <= |e.content| {
      var n := c.files[e.path].safeOffset;
      assert e.content[n..n] == "";
      OneLineHasNone("");
    }
  }

  predicate Seen(entries: seq<Entry>, k: nat, p: string)
    requires k <= |entries|
  {
    exists i :: 0 <= i < k && entries[i].path == p
  }

  predicate SameFile(a: map<string, FileState>, b: map<string, FileState>, p: string) {
    (p in a <==> p in b) && (p in a ==> a[p] == b[p])
  }

  /** Every listed file is known. */
  ghost predicate AllKnown(t: Tailer, entries: seq<Entry>, start: map<string, nat>) {
    forall e <- entries :: Known(t.files, e.content, e.path, StartIn(start, e.path))
  }

  /** The file of one entry after the call. */
  ghost predicate EntryKept(t: Tailer, files: map<string, FileState>, e: Entry, disk: Disk, start: map<string, nat>) {
    FileKept(t.files, files, e.content, e.path, StartAt(start, t.files, files, disk, t.bootstrap, e.path))
  }

  /** The call after its first k files, in terms of those files alone. */
  ghost predicate CallOk(t: Tailer, entries: seq<Entry>, maxBytes: nat, k: nat, disk: Disk, start: map<string, nat>)
    requires k <= |entries|
  {
    var c := ReadUpTo(t, entries, maxBytes, k);
    && (forall i :: 0 <= i < k ==> EntryKept(t, c.files, entries[i], disk, start))
    && c.lines == Segments(t.files, c.files, entries[..k], t.bootstrap)
    && (forall p :: !Seen(entries, k, p) ==> SameFile(t.files, c.files, p))
    && c.used <= maxBytes
  }

  lemma {:induction false} CallKeeps(t: Tailer, entries: seq<Entry>, maxBytes: nat, k: nat, disk: Disk,
                                     start: map<string, nat>)
    requires k <= |entries| && ListsSome(entries, disk) && AllKnown(t, entries, start)
    ensures CallOk(t, entries, maxBytes, k, disk, start)
    decreases k
  {
    hide EntryKept, ReadEntry, Segment, Known;
    if k > 0 {
      CallKeeps(t, entries, maxBytes, k - 1, disk, start);
      CallStep(t, entries, maxBytes, k, disk, start);
    }
  }

  lemma NotSeenYet(entries: seq<Entry>, k: nat)
    requires DistinctPaths(entries) && k < |entries|
    ensures forall e <- entries[..k] :: e.path != entries[k].path
    ensures forall i :: 0 <= i < k ==> entries[i].path != entries[k].path
    ensures !Seen(entries, k, entries[k].path)
  {
  }

  lemma CallStep(t: Tailer, entries: seq<Entry>, maxBytes: nat, k: nat, disk: Disk, start: map<string, nat>)
    requires 0 < k <= |entries| && ListsSome(entries, disk) && CallOk(t, entries, maxBytes, k - 1, disk, start)
    requires AllKnown(t, entries, start)
    ensures CallOk(t, entries, maxBytes, k, disk, start)
  {
    hide FileKept, Known, ReadEntry, Segment, Segments, StartAt, Seen, SameFile, Sets;
    var c, e := ReadUpTo(t, entries, maxBytes, k - 1), entries[k - 1];
    var c' := ReadUpTo(t, entries, maxBytes, k);
    assert e in entries;
    NotSeenYet(entries, k - 1);
    EntryKeeps(t, c, e, k - 1, |entries|, maxBytes, disk, start);
    EarlierKept(t, c.files, c'.files, entries, k, disk, start);
    LinesStep(t, c, c', entries, k);
    FrameStep(t, c, c', entries, k);
  }

  lemma SetsKeepsOthers(a: map<string, FileState>, b: map<string, FileState>, p: string, q: string)
    requires Sets(a, b, p) && q != p
    ensures SameFile(a, b, q)
  {
  }

  lemma EarlierKept(t: Tailer, files: map<string, FileState>, files': map<string, FileState>, entries: seq<Entry>,
                    k: nat, disk: Disk, start: map<string, nat>)
    requires 0 < k <= |entries| && Sets(files, files', entries[k - 1].path)
    requires forall i :: 0 <= i < k - 1 ==> entries[i].path != entries[k - 1].path
    requires forall i :: 0 <= i < k - 1 ==> EntryKept(t, files, entries[i], disk, start)
    requires EntryKept(t, files', entries[k - 1], disk, start)
    ensures forall i :: 0 <= i < k ==> EntryKept(t, files', entries[i], disk, start)
  {
    hide EntryKept, Sets, SameFile;
    forall i | 0 <= i < k ensures EntryKept(t, files', entries[i], disk, start) {
      if i < k - 1 {
        SetsKeepsOthers(files, files', entries[k - 1].path, entries[i].path);
        KeptIgnoresOthers(t, files, files', entries[i], disk, start);
      }
    }
  }

  lemma KeptIgnoresOthers(t: Tailer, files: map<string, FileState>, files': map<string, FileState>, e: Entry,
                          disk: Disk, start: map<string, nat>)
    requires EntryKept(t, files, e, disk, start) && SameFile(files, files', e.path)
    ensures EntryKept(t, files', e, disk, start)
  {
    hide FileOk;
  }

  lemma FrameStep(t: Tailer, c: Call, c': Call, entries: seq<Entry>, k: nat)
    requires 0 < k <= |entries|
    requires forall p :: !Seen(entries, k - 1, p) ==> SameFile(t.files, c.files, p)
    requires Sets(c.files, c'.files, entries[k - 1].path)
    ensures forall p :: !Seen(entries, k, p) ==> SameFile(t.files, c'.files, p)
  {
    hide Sets;
    forall p | !Seen(entries, k, p) ensures SameFile(t.files, c'.files, p) {
      assert !Seen(entries, k - 1, p);
      assert entries[k - 1].path != p;
      SetsKeepsOthers(c.files, c'.files, entries[k - 1].path, p);
      assert SameFile(t.files, c.files, p);
    }
  }

  lemma LinesStep(t: Tailer, c: Call, c': Call, entries: seq<Entry>, k: nat)
    requires 0 < k <= |entries|
    requires forall e <- entries[..k - 1] :: e.path != entries[k - 1].path
    requires c.lines == Segments(t.files, c.files, entries[..k - 1], t.bootstrap)
    requires c'.lines == c.lines + Segment(t.files, c'.files, entries[k - 1], t.bootstrap)
    requires Sets(c.files, c'.files, entries[k - 1].path)
    ensures c'.lines == Segments(t.files, c'.files, entries[..k], t.bootstrap)
  {
    hide Segment, Sets, SameFile;
    forall e <- entries[..k - 1] ensures SameFile(c.files, c'.files, e.path) {
      SetsKeepsOthers(c.files, c'.files, entries[k - 1].path, e.path);
    }
    SegmentsIgnoreOthers(t.files, c.files, c'.files, entries[..k - 1], t.bootstrap);
    assert entries[..k][..k - 1] == entries[..k - 1] && entries[..k][k - 1] == entries[k - 1];
  }

  // ---------------------------------------------------------------- whole calls and runs of calls

  /** One call on the files that a listing names, each of which is read soundly so far or has become
      shorter than that: every file is kept or started over, and the lines returned are exactly the
      lines that each of them owes, in listing order. Files that the listing misses are forgotten. */
  lemma ListedReads(t: Tailer, entries: seq<Entry>, maxBytes: nat, saved: bool, disk: Disk, start: map<string, nat>)
    requires ListsSome(entries, disk) && AllKnown(t, entries, start)
    ensures var r := ReadNewLines(t, entries, maxBytes, saved);
            && (maxBytes == 0 ==> r == (t, []))
            && (maxBytes > 0 ==>
                  && r.0.files.Keys <= Paths(entries) && t.files.Keys * Paths(entries) <= r.0.files.Keys
                  && r.1 == Segments(t.files, r.0.files, entries, t.bootstrap)
                  && forall p <- Paths(entries) :: p in disk && DiskKept(t, r.0.files, p, disk, start))
  {
    hide EntryKept, Known, Segments, ReadEntry, SameFile;
    if maxBytes > 0 {
      var r := ReadNewLines(t, entries, maxBytes, saved).0;
      var c := ReadUpTo(t, entries, maxBytes, |entries|);
      CallKeeps(t, entries, maxBytes, |entries|, disk, start);
      assert entries[..|entries|] == entries;
      forall e <- entries ensures SameFile(c.files, r.files, e.path) { StillThere(c.files, r.files, entries, e); }
      SegmentsIgnoreOthers(t.files, c.files, r.files, entries, t.bootstrap);
      forall p <- Paths(entries) ensures p in disk && DiskKept(t, r.files, p, disk, start) {
        var e :| e in entries && e.path == p;
        var i :| 0 <= i < |entries| && entries[i] == e;
        KeptIgnoresOthers(t, c.files, r.files, e, disk, start);
        KeptOnDisk(t, r.files, e, disk, start);
      }
    }
  }

  /** `EntryKept`, by the file's bytes on disk. */
  ghost predicate DiskKept(t: Tailer, files: map<string, FileState>, p: string, disk: Disk, start: map<string, nat>)
    requires p in disk
  {
    FileKept(t.files, files, disk[p], p, StartAt(start, t.files, files, disk, t.bootstrap, p))
  }

  lemma KeptOnDisk(t: Tailer, files: map<string, FileState>, e: Entry, disk: Disk, start: map<string, nat>)
    requires e.path in disk && e.content == disk[e.path] && EntryKept(t, files, e, disk, start)
    ensures DiskKept(t, files, e.path, disk, start) && (e.path in t.files ==> e.path in files)
  {
    hide FileOk, StartAt;
  }

  lemma StillThere(files: map<string, FileState>, kept: map<string, FileState>, entries: seq<Entry>, e: Entry)
    requires e in entries && kept == map p | p in files && p in Paths(entries) :: files[p]
    ensures SameFile(files, kept, e.path)
  {
    assert e.path in Paths(entries);
  }

  lemma AllKnownIfOk(t: Tailer, entries: seq<Entry>, disk: Disk, start: map<string, nat>)
    requires ListsSome(entries, disk) && FilesOk(t.files, disk, start)
    ensures AllKnown(t, entries, start)
  {
    hide FileOk;
  }

  /** A file that was read soundly is read soundly after the call, and is not started over. */
  lemma SoundStays(t: Tailer, files: map<string, FileState>, p: string, disk: Disk, start: map<string, nat>)
    requires p in disk && p in files && DiskKept(t, files, p, disk, start)
    requires p in t.files ==> p in start && FileOk(t.files[p], disk[p], start[p])
    ensures FileOk(files[p], disk[p], StartAt(start, t.files, files, disk, t.bootstrap, p))
    ensures p in t.files ==> t.files[p].safeOffset <= files[p].safeOffset && !Rewinds(t.files, files, disk[p], p)
  {
    hide OneLine;
  }

  /** One call on files that have only grown: they stay sound and move forward, and the
      lines returned are exactly the lines between the old and the new safe offset of
      each of them, in listing order. Files that the listing misses are forgotten. */
  lemma ListedDelivers(t: Tailer, entries: seq<Entry>, maxBytes: nat, saved: bool, disk: Disk, start: map<string, nat>)
    requires ListsSome(entries, disk) && FilesOk(t.files, disk, start)
    ensures var r := ReadNewLines(t, entries, maxBytes, saved);
            && FilesOk(r.0.files, disk, StartsAfter(start, t.files, r.0.files, disk, t.bootstrap))
            && r.1 == (if maxBytes == 0 then [] else Segments(t.files, r.0.files, entries, t.bootstrap))
            && (forall p <- t.files :: p in r.0.files ==> t.files[p].safeOffset <= r.0.files[p].safeOffset)
            && (maxBytes == 0 ==> r.0 == t)
            && (maxBytes > 0 ==> r.0.files.Keys <= Paths(entries) && t.files.Keys * Paths(entries) <= r.0.files.Keys)
  {
    hide FileOk, Segments, ReadNewLines, AllKnown, DiskKept, Rewinds, StartAt;
    var r := ReadNewLines(t, entries, maxBytes, saved);
    AllKnownIfOk(t, entries, disk, start);
    ListedReads(t, entries, maxBytes, saved, disk, start);
    if maxBytes == 0 {
      SameStarts(t.files, disk, start, t.bootstrap);
    } else {
      forall p <- r.0.files
        ensures p in disk && FileOk(r.0.files[p], disk[p], StartAt(start, t.files, r.0.files, disk, t.bootstrap, p))
                && (p in t.files ==> t.files[p].safeOffset <= r.0.files[p].safeOffset)
      {
        SoundStays(t, r.0.files, p, disk, start);
      }
    }
  }

  /** One call on everything that is on disk: no file is forgotten. */
  lemma CallDelivers(t: Tailer, entries: seq<Entry>, maxBytes: nat, saved: bool, disk: Disk, start: map<string, nat>)
    requires Lists(entries, disk) && FilesOk(t.files, disk, start)
    ensures var r := ReadNewLines(t, entries, maxBytes, saved);
            && FilesOk(r.0.files, disk, StartsAfter(start, t.files, r.0.files, disk, t.bootstrap))
            && r.1 == (if maxBytes == 0 then [] else Segments(t.files, r.0.files, entries, t.bootstrap))
            && (forall p <- t.files :: p in r.0.files && t.files[p].safeOffset <= r.0.files[p].safeOffset)
            && (maxBytes == 0 ==> r.0 == t)
  {
    hide FileOk, Segments, ReadNewLines, StartsAfter;
    ListedDelivers(t, entries, maxBytes, saved, disk, start);
    AllListed(t.files, entries, disk, start);
  }

  lemma SameStarts(files: map<string, FileState>, disk: Disk, start: map<string, nat>, bootstrap: bool)
    requires FilesOk(files, disk, start)
    ensures FilesOk(files, disk, StartsAfter(start, files, files, disk, bootstrap))
  {
    hide FileOk;
  }

  lemma AllListed(files: map<string, FileState>, entries: seq<Entry>, disk: Disk, start: map<string, nat>)
    requires Lists(entries, disk) && FilesOk(files, disk, start)
    ensures forall p <- files :: p in Paths(entries)
  {
    hide FileOk;
  }

  /** A run of the tailer: files grow, appear, are replaced or removed, and calls are made with any listing, complete or
      not, in any order, with any budget and service. */
  datatype TailEvent =
    | Grown(path: string, text: string)
    | Replaced(path: string, text: string)
    | Removed(path: string)
    | Polled(entries: seq<Entry>, maxBytes: nat, saved: bool)

  /** `delivered` collects, file by file, the lines that calls have returned for it since it was last started: its
      portions of their results. `stale` are the files that were replaced or removed after they were last read. */
  datatype TailRun = TailRun(disk: Disk, t: Tailer, start: map<string, nat>, delivered: map<string, seq<string>>,
                             stale: set<string>)

  function GrowFile(disk: Disk, path: string, text: string): Disk {
    disk[path := (if path in disk then disk[path] else "") + text]
  }

  /** The share of one file in the lines a call returned. */
  function ShareOf(before: map<string, FileState>, after: map<string, FileState>, disk: Disk, bootstrap: bool,
                   p: string): seq<string>
    requires p in disk
  {
    Segment(before, after, Entry(p, disk[p], true, 0), bootstrap)
  }

  /** The portion of a call's result that belongs to one file. The result lists the files' lines one after the other, in
      listing order; how many are each file's follows from its offsets. */
  function Portion(lines: seq<string>, before: map<string, FileState>, after: map<string, FileState>,
                   entries: seq<Entry>, bootstrap: bool, p: string): seq<string>
    decreases |entries|
  {
    if entries == [] then []
    else
      var last := entries[|entries| - 1];
      var n := |Segment(before, after, last, bootstrap)|;
      if |lines| < n then []
      else if last.path == p then lines[|lines| - n..]
      else Portion(lines[..|lines| - n], before, after, entries[..|entries| - 1], bootstrap, p)
  }

  /** The portions of the listed files, in listing order. */
  function Portions(lines: seq<string>, before: map<string, FileState>, after: map<string, FileState>,
                    entries: seq<Entry>, bootstrap: bool, k: nat): seq<string>
    requires k <= |entries|
  {
    if k == 0 then []
    else
      Portions(lines, before, after, entries, bootstrap, k - 1)
      + Portion(lines, before, after, entries, bootstrap, entries[k - 1].path)
  }

  /** A replaced file that is listed is shorter than what was read of it; otherwise the reader cannot notice. */
  ghost predicate Possible(r: TailRun, event: TailEvent) {
    event.Polled? ==>
      && ListsSome(event.entries, r.disk)
      && forall e <- event.entries ::
           e.path in r.t.files && e.path in r.stale ==> |e.content| < r.t.files[e.path].lastOffset
  }

  /** The file is started over by the call, or is tracked for the first time. */
  predicate Starts(r: TailRun, after: map<string, FileState>, p: string) {
    p !in r.t.files || (p in r.disk && Rewinds(r.t.files, after, r.disk[p], p))
  }

  function TailStep(r: TailRun, event: TailEvent): TailRun {
    match event
    case Grown(path, text) => r.(disk := GrowFile(r.disk, path, text))
    case Replaced(path, text) => r.(disk := r.disk[path := text], stale := r.stale + {path})
    case Removed(path) => r.(disk := r.disk - {path}, stale := r.stale + {path})
    case Polled(entries, maxBytes, saved) =>
      var result := ReadNewLines(r.t, entries, maxBytes, saved);
      var t' := result.0;
      TailRun(r.disk, t', StartsAfter(r.start, r.t.files, t'.files, r.disk, r.t.bootstrap),
        map p | p in t'.files ::
          (if p in r.delivered && !Starts(r, t'.files, p) then r.delivered[p] else [])
          + if maxBytes == 0 then [] else Portion(result.1, r.t.files, t'.files, entries, r.t.bootstrap, p),
        set p | p in r.stale && p in t'.files && !Starts(r, t'.files, p))
  }

  /** The lines delivered for a file are exactly its complete lines from the start to the safe offset. */
  ghost predicate Exact(lines: seq<string>, content: string, start: nat, f: FileState) {
    start <= f.safeOffset <= |content| && lines == CompleteLines(content[start..f.safeOffset])
  }

  /** One file is read soundly and has delivered exactly its complete lines so far. */
  ghost predicate Fresh(r: TailRun, p: string) {
    && p in r.t.files && p in r.disk && p in r.start && p in r.delivered
    && FileOk(r.t.files[p], r.disk[p], r.start[p]) && Exact(r.delivered[p], r.disk[p], r.start[p], r.t.files[p])
  }

  /** Whatever the schedule of growth, replacement, removal and polling, every file has delivered
      exactly its complete lines so far, unless it was replaced or removed since it was last read. */
  ghost predicate TailInv(r: TailRun) {
    r.delivered.Keys == r.t.files.Keys && forall p <- r.t.files :: p in r.stale || Fresh(r, p)
  }

  lemma GrowthKeeps(r: TailRun, path: string, text: string)
    requires TailInv(r)
    ensures TailInv(TailStep(r, Grown(path, text)))
  {
    hide Fresh;
    var r' := TailStep(r, Grown(path, text));
    forall p <- r'.t.files ensures p in r'.stale || Fresh(r', p) {
      if p !in r.stale { GrownFresh(r, path, text, p); }
    }
  }

  lemma GrownFresh(r: TailRun, path: string, text: string, p: string)
    requires Fresh(r, p)
    ensures Fresh(TailStep(r, Grown(path, text)), p)
  {
    hide CompleteLines, OneLine;
    if p == path { FileOkAfterAppend(r.t.files[p], r.disk[p], text, r.start[p]); }
  }

  /** Replacing or removing a file changes nothing for the others. */
  lemma ReplacementKeeps(r: TailRun, event: TailEvent)
    requires TailInv(r) && (event.Replaced? || event.Removed?)
    ensures TailInv(TailStep(r, event))
  {
    hide FileOk, Exact;
  }

  /** The lines owed to one file continue what it has delivered. */
  lemma ShareContinues(before: map<string, FileState>, after: map<string, FileState>, disk: Disk, bootstrap: bool,
                       p: string, lines: seq<string>, start: nat)
    requires p in disk && p in after && FileOk(after[p], disk[p], start)
    requires p in before ==> FileOk(before[p], disk[p], start) && before[p].safeOffset <= after[p].safeOffset
                             && Exact(lines, disk[p], start, before[p])
    requires p !in before ==> lines == [] && start == if bootstrap then |disk[p]| else 0
    ensures Exact(lines + ShareOf(before, after, disk, bootstrap, p), disk[p], start, after[p])
  {
    hide CompleteLines, OneLine;
    if p in before {
      LinesGrow(disk[p], start, before[p].safeOffset, after[p].safeOffset);
    } else {
      assert lines + ShareOf(before, after, disk, bootstrap, p) == ShareOf(before, after, disk, bootstrap, p);
    }
  }

  lemma {:induction false} PortionIsSegment(before: map<string, FileState>, after: map<string, FileState>,
                                            entries: seq<Entry>, bootstrap: bool, i: nat)
    requires DistinctPaths(entries) && i < |entries|
    ensures Portion(Segments(before, after, entries, bootstrap), before, after, entries, bootstrap, entries[i].path)
         == Segment(before, after, entries[i], bootstrap)
    decreases |entries|
  {
    hide Segment;
    var front, last := entries[..|entries| - 1], entries[|entries| - 1];
    var lines, own := Segments(before, after, front, bootstrap), Segment(before, after, last, bootstrap);
    assert (lines + own)[|lines|..] == own && (lines + own)[..|lines|] == lines;
    if i < |entries| - 1 { PortionIsSegment(before, after, front, bootstrap, i); }
  }

  /** The portions in listing order make up the whole result: no returned line is left over. */
  lemma {:induction false} PortionsMakeUp(before: map<string, FileState>, after: map<string, FileState>,
                                          entries: seq<Entry>, bootstrap: bool, k: nat)
    requires DistinctPaths(entries) && k <= |entries|
    ensures Portions(Segments(before, after, entries, bootstrap), before, after, entries, bootstrap, k)
         == Segments(before, after, entries[..k], bootstrap)
    decreases k
  {
    hide Segment, Portion;
    if k > 0 {
      PortionsMakeUp(before, after, entries, bootstrap, k - 1);
      PortionIsSegment(before, after, entries, bootstrap, k - 1);
      assert entries[..k][..k - 1] == entries[..k - 1];
    }
  }

  lemma KnownInRun(r: TailRun, entries: seq<Entry>, maxBytes: nat, saved: bool)
    requires TailInv(r) && Possible(r, Polled(entries, maxBytes, saved))
    ensures AllKnown(r.t, entries, r.start)
  {
    hide FileOk, Exact;
    forall e <- entries ensures Known(r.t.files, e.content, e.path, StartIn(r.start, e.path)) {
      if e.path in r.t.files && e.path !in r.stale { assert Fresh(r, e.path); }
    }
  }

  /** What a call returned, cut into its files' portions. */
  lemma ResultIsPortions(r: TailRun, entries: seq<Entry>, maxBytes: nat, saved: bool)
    requires TailInv(r) && Possible(r, Polled(entries, maxBytes, saved)) && maxBytes > 0
    ensures var result := ReadNewLines(r.t, entries, maxBytes, saved);
            && result.1 == Segments(r.t.files, result.0.files, entries, r.t.bootstrap)
            && result.1 == Portions(result.1, r.t.files, result.0.files, entries, r.t.bootstrap, |entries|)
  {
    hide ReadNewLines, AllKnown, TailInv, DiskKept, Segments, Portions;
    var result := ReadNewLines(r.t, entries, maxBytes, saved);
    KnownInRun(r, entries, maxBytes, saved);
    ListedReads(r.t, entries, maxBytes, saved, r.disk, r.start);
    PortionsMakeUp(r.t.files, result.0.files, entries, r.t.bootstrap, |entries|);
    assert entries[..|entries|] == entries;
  }

  /** A file's portion of the result is what it owed. */
  lemma PortionIsShare(r: TailRun, entries: seq<Entry>, maxBytes: nat, saved: bool, p: string)
    requires TailInv(r) && Possible(r, Polled(entries, maxBytes, saved)) && maxBytes > 0
    requires p in Paths(entries)
    ensures var result := ReadNewLines(r.t, entries, maxBytes, saved);
            && p in r.disk
            && Portion(result.1, r.t.files, result.0.files, entries, r.t.bootstrap, p)
               == ShareOf(r.t.files, result.0.files, r.disk, r.t.bootstrap, p)
  {
    hide ReadNewLines, TailInv, Segments, Portion, Portions, Segment;
    var result := ReadNewLines(r.t, entries, maxBytes, saved);
    ResultIsPortions(r, entries, maxBytes, saved);
    var e :| e in entries && e.path == p;
    var i :| 0 <= i < |entries| && entries[i] == e;
    PortionIsSegment(r.t.files, result.0.files, entries, r.t.bootstrap, i);
    SegmentIsShare(r.t.files, result.0.files, e, r.disk, r.t.bootstrap);
  }

  lemma SegmentIsShare(before: map<string, FileState>, after: map<string, FileState>, e: Entry, disk: Disk,
                       bootstrap: bool)
    requires e.path in disk && e.content == disk[e.path]
    ensures Segment(before, after, e, bootstrap) == ShareOf(before, after, disk, bootstrap, e.path)
  {
    hide CompleteLines;
  }

  /** A file that is started by the call, the first time or over, has delivered its portion. */
  lemma StartedFresh(r: TailRun, files: map<string, FileState>, p: string)
    requires p in r.disk && p in files && DiskKept(r.t, files, p, r.disk, r.start) && Starts(r, files, p)
    ensures var start := StartAt(r.start, r.t.files, files, r.disk, r.t.bootstrap, p);
            FileOk(files[p], r.disk[p], start)
            && Exact([] + ShareOf(r.t.files, files, r.disk, r.t.bootstrap, p), r.disk[p], start, files[p])
  {
    hide CompleteLines, OneLine;
    var share := ShareOf(r.t.files, files, r.disk, r.t.bootstrap, p);
    assert [] + share == share;
  }

  /** A file that goes on has delivered its portion after what it had delivered. */
  lemma ContinuedFresh(r: TailRun, files: map<string, FileState>, p: string)
    requires Fresh(r, p) && p in files && DiskKept(r.t, files, p, r.disk, r.start)
    ensures var start := StartAt(r.start, r.t.files, files, r.disk, r.t.bootstrap, p);
            && !Starts(r, files, p) && FileOk(files[p], r.disk[p], start)
            && Exact(r.delivered[p] + ShareOf(r.t.files, files, r.disk, r.t.bootstrap, p), r.disk[p], start, files[p])
  {
    hide CompleteLines, OneLine, ShareOf, Exact;
    var start := StartAt(r.start, r.t.files, files, r.disk, r.t.bootstrap, p);
    SoundStays(r.t, files, p, r.disk, r.start);
    ShareContinues(r.t.files, files, r.disk, r.t.bootstrap, p, r.delivered[p], start);
  }

  lemma PolledFresh(r: TailRun, entries: seq<Entry>, maxBytes: nat, saved: bool, p: string)
    requires TailInv(r) && Possible(r, Polled(entries, maxBytes, saved)) && maxBytes > 0
    requires p in ReadNewLines(r.t, entries, maxBytes, saved).0.files
    ensures var r' := TailStep(r, Polled(entries, maxBytes, saved)); p in r'.stale || Fresh(r', p)
  {
    hide ReadNewLines, DiskKept, FileOk, ShareOf, Exact, Portion, AllKnown, Starts, StartAt;
    var files := ReadNewLines(r.t, entries, maxBytes, saved).0.files;
    KnownInRun(r, entries, maxBytes, saved);
    ListedReads(r.t, entries, maxBytes, saved, r.disk, r.start);
    PortionIsShare(r, entries, maxBytes, saved, p);
    if Starts(r, files, p) {
      StartedFresh(r, files, p);
    } else if p !in r.stale {
      assert p in r.t.files by { NotStarted(r, files, p); }
      ContinuedFresh(r, files, p);
    }
  }

  lemma NotStarted(r: TailRun, files: map<string, FileState>, p: string)
    ensures !Starts(r, files, p) ==> p in r.t.files
  {
  }

  lemma PollKeeps(r: TailRun, entries: seq<Entry>, maxBytes: nat, saved: bool)
    requires TailInv(r) && Possible(r, Polled(entries, maxBytes, saved))
    ensures TailInv(TailStep(r, Polled(entries, maxBytes, saved)))
  {
    hide ReadNewLines, Portion, Fresh, Starts;
    var r' := TailStep(r, Polled(entries, maxBytes, saved));
    forall p <- r'.t.files ensures p in r'.stale || Fresh(r', p) {
      if maxBytes > 0 { PolledFresh(r, entries, maxBytes, saved, p); } else { NothingPolled(r, entries, saved, p); }
    }
  }

  /** A call with no budget changes nothing. */
  lemma NothingPolled(r: TailRun, entries: seq<Entry>, saved: bool, p: string)
    requires TailInv(r)
    ensures var r' := TailStep(r, Polled(entries, 0, saved)); p in r'.t.files ==> p in r'.stale || Fresh(r', p)
  {
    hide FileOk, Exact, Portion;
    if p in r.t.files && p !in r.stale { assert r.delivered[p] + [] == r.delivered[p]; }
  }

  function RunTail(r: TailRun, events: seq<TailEvent>): TailRun {
    if events == [] then r else TailStep(RunTail(r, events[..|events| - 1]), events[|events| - 1])
  }

  /** Chunk independence over whole runs from any sound state, a fresh tailer included:
      the portions of the calls' results that belong to a file are its complete lines
      so far, unless it was replaced or removed since it was last read. */
  lemma {:induction false} EveryTailRunIsExact(r: TailRun, events: seq<TailEvent>)
    requires TailInv(r)
    requires forall i :: 0 <= i < |events| ==> Possible(RunTail(r, events[..i]), events[i])
    ensures TailInv(RunTail(r, events))
    decreases |events|
  {
    hide TailInv, TailStep, ListsSome;
    if events != [] {
      var front := events[..|events| - 1];
      assert forall i :: 0 <= i < |front| ==> front[..i] == events[..i] && front[i] == events[i];
      EveryTailRunIsExact(r, front);
      match events[|events| - 1]
      case Grown(path, text) => GrowthKeeps(RunTail(r, front), path, text);
      case Replaced(_, _) => ReplacementKeeps(RunTail(r, front), events[|events| - 1]);
      case Removed(_) => ReplacementKeeps(RunTail(r, front), events[|events| - 1]);
      case Polled(entries, maxBytes, saved) => PollKeeps(RunTail(r, front), entries, maxBytes, saved);
    }
  }

  /** A tailer that starts on a sound checkpoint reads every file on from the recorded offset, and nothing before it. */
  lemma StartIsSound(checkpoint: Option<map<string, nat>>, startAtEnd: bool, disk: Disk)
    requires checkpoint.Some? ==> forall p <- checkpoint.value :: p in disk && checkpoint.value[p] <= |disk[p]|
    ensures var t := Start(checkpoint, startAtEnd);
            var start := if checkpoint.Some? then checkpoint.value else map[];
            && FilesOk(t.files, disk, start)
            && TailInv(TailRun(disk, t, start, map p | p in t.files :: [], {}))
            && (forall p <- t.files :: t.files[p] == FileState(start[p], start[p], ""))
  {
    hide CompleteLines;
    OneLineHasNone("");
    if checkpoint.Some? {
      forall p <- checkpoint.value ensures disk[p][checkpoint.value[p]..checkpoint.value[p]] == "" { }
    }
  }
}
