/** The invariant of the whole pipeline over every run with crashes. It speaks of each file from its floor on, which
    a second bootstrap moves forward; FixedOrigin says what this means from the first bootstrap of the run on. */
module AtLeastOnce {
  import opened Text
  import opened LineSplit
  import opened TailerSpec
  import opened TailerTheorems
  import opened UnifiedSpec
  import opened UnifiedHistory
  import opened UnifiedPlaces
  import opened UnifiedSteps
  import opened UnifiedInvariant
  import opened UnifiedTheorems
  import opened UnifiedRuns
  import opened Pipeline

  // ---------------------------------------------------------------- the invariant of one source

  /** The complete lines of a file between its floor and `upTo` are all dealt with. */
  ghost predicate LinesCovered(src: Source, p: string, upTo: nat, ids: set<string>) {
    && p in src.disk && p in src.floor && src.floor[p] <= upTo <= |src.disk[p]|
    && AllCovered(src.endpoint, CompleteLines(src.disk[p][src.floor[p]..upTo]), ids)
  }

  /** A recorded offset is a line boundary, and every line before it has reached the log. */
  ghost predicate CheckpointOk(src: Source, c: map<string, nat>, archive: set<string>) {
    forall p <- c :: LinesCovered(src, p, c[p], archive) && FileOk(FileState(c[p], c[p], ""), src.disk[p], src.floor[p])
  }

  /** The source as the tracking that the checkpoint recorded saw it. A file that a listing missed is read from
      its beginning when it is listed again, so the present tracking may have started at another point. */
  function Marked(src: Source): Source { src.(floor := src.mark) }

  ghost predicate TrackedOk(src: Source, ids: set<string>) {
    && FilesOk(src.t.files, src.disk, src.floor)
    && forall p <- src.t.files :: LinesCovered(src, p, src.t.files[p].safeOffset, ids)
  }

  /** `current` are the identities accepted by the running process. */
  ghost predicate SourceOk(src: Source, archive: set<string>, current: set<string>) {
    && TrackedOk(src, archive + current)
    && (src.t.bootstrap ==> src.t.files == map[])
    && (src.t.checkpoint.Some? ==> CheckpointOk(Marked(src), src.t.checkpoint.value, archive))
  }

  ghost predicate WorldOk(w: World) {
    && Inv(w.engine, w.h)
    && (forall src <- w.sources :: SourceOk(src, w.archive, AcceptedIds(w.h)))
    && (w.engine.groups == [] && w.engine.forced == [] ==> AcceptedIds(w.h) <= w.archive)
  }

  // ---------------------------------------------------------------- more identities, longer files

  lemma LinesCoveredMono(src: Source, p: string, upTo: nat, ids: set<string>, more: set<string>)
    requires LinesCovered(src, p, upTo, ids) && ids <= more
    ensures LinesCovered(src, p, upTo, more)
  {
    hide CompleteLines, Covered;
    CoveredMono(src.endpoint, CompleteLines(src.disk[p][src.floor[p]..upTo]), ids, more);
  }

  lemma SourceOkMono(src: Source, archive: set<string>, current: set<string>, archive': set<string>,
                     current': set<string>)
    requires SourceOk(src, archive, current)
    requires archive <= archive' && archive + current <= archive' + current'
    ensures SourceOk(src, archive', current')
  {
    hide LinesCovered, FileOk, FilesOk;
    forall p <- src.t.files ensures LinesCovered(src, p, src.t.files[p].safeOffset, archive' + current') {
      LinesCoveredMono(src, p, src.t.files[p].safeOffset, archive + current, archive' + current');
    }
    if src.t.checkpoint.Some? { CheckpointOkMono(Marked(src), src.t.checkpoint.value, archive, archive'); }
  }

  lemma CheckpointOkMono(src: Source, c: map<string, nat>, archive: set<string>, archive': set<string>)
    requires CheckpointOk(src, c, archive) && archive <= archive'
    ensures CheckpointOk(src, c, archive')
  {
    hide LinesCovered, FileOk;
    forall p <- c ensures LinesCovered(src, p, c[p], archive') && p in src.disk && p in src.floor
                          && FileOk(FileState(c[p], c[p], ""), src.disk[p], src.floor[p]) {
      LinesCoveredMono(src, p, c[p], archive, archive');
      OnDisk(src, p, c[p], archive);
    }
  }

  lemma OnDisk(src: Source, p: string, upTo: nat, ids: set<string>)
    requires LinesCovered(src, p, upTo, ids)
    ensures p in src.disk && p in src.floor
  {
  }

  // ---------------------------------------------------------------- a file grows

  lemma GrownSlice(a: string, more: string, from: nat, to: nat)
    requires from <= to <= |a|
    ensures (a + more)[from..to] == a[from..to]
  {
  }

  lemma GrownLines(src: Source, path: string, text: string, p: string, upTo: nat, ids: set<string>)
    requires LinesCovered(src, p, upTo, ids)
    ensures LinesCovered(src.(disk := GrowFile(src.disk, path, text)), p, upTo, ids)
  {
    hide CompleteLines, Covered, AllCovered;
    if p == path { GrownSlice(src.disk[p], text, src.floor[p], upTo); }
  }

  lemma GrownFile(src: Source, path: string, text: string, p: string, f: FileState)
    requires p in src.disk && p in src.floor && FileOk(f, src.disk[p], src.floor[p])
    ensures p in GrowFile(src.disk, path, text) && FileOk(f, GrowFile(src.disk, path, text)[p], src.floor[p])
  {
    hide OneLine;
    if p == path { FileOkAfterAppend(f, src.disk[p], text, src.floor[p]); }
  }

  lemma GrownSource(src: Source, path: string, text: string, archive: set<string>, current: set<string>)
    requires SourceOk(src, archive, current)
    ensures SourceOk(src.(disk := GrowFile(src.disk, path, text)), archive, current)
  {
    hide LinesCovered, FileOk, GrowFile;
    var src' := src.(disk := GrowFile(src.disk, path, text));
    forall p <- src.t.files
      ensures p in src'.disk && p in src'.floor && FileOk(src.t.files[p], src'.disk[p], src'.floor[p])
      ensures LinesCovered(src', p, src.t.files[p].safeOffset, archive + current)
    {
      GrownFile(src, path, text, p, src.t.files[p]);
      GrownLines(src, path, text, p, src.t.files[p].safeOffset, archive + current);
    }
    if src.t.checkpoint.Some? { GrownCheckpoint(Marked(src), path, text, src.t.checkpoint.value, archive); }
  }

  lemma GrownCheckpoint(src: Source, path: string, text: string, c: map<string, nat>, archive: set<string>)
    requires CheckpointOk(src, c, archive)
    ensures CheckpointOk(src.(disk := GrowFile(src.disk, path, text)), c, archive)
  {
    hide LinesCovered, FileOk, GrowFile;
    forall p <- c ensures LinesCovered(src.(disk := GrowFile(src.disk, path, text)), p, c[p], archive)
                          && p in GrowFile(src.disk, path, text) && p in src.floor
                          && FileOk(FileState(c[p], c[p], ""), GrowFile(src.disk, path, text)[p], src.floor[p]) {
      OnDisk(src, p, c[p], archive);
      GrownLines(src, path, text, p, c[p], archive);
      GrownFile(src, path, text, p, FileState(c[p], c[p], ""));
    }
  }

  // ---------------------------------------------------------------- a source is read

  lemma {:induction false} SegmentIncluded(before: map<string, FileState>, after: map<string, FileState>,
                                           entries: seq<Entry>, bootstrap: bool, k: nat)
    requires k < |entries|
    ensures forall line <- Segment(before, after, entries[k], bootstrap) ::
            line in Segments(before, after, entries, bootstrap)
    decreases |entries|
  {
    hide Segment;
    if k < |entries| - 1 {
      SegmentIncluded(before, after, entries[..|entries| - 1], bootstrap, k);
    }
  }

  lemma ShareIncluded(before: map<string, FileState>, after: map<string, FileState>, entries: seq<Entry>, disk: Disk,
                      bootstrap: bool, p: string)
    requires ListsSome(entries, disk) && p in disk && p in Paths(entries)
    ensures forall line <- ShareOf(before, after, disk, bootstrap, p) ::
            line in Segments(before, after, entries, bootstrap)
  {
    hide Segments, CompleteLines;
    var e :| e in entries && e.path == p;
    var k :| 0 <= k < |entries| && entries[k] == e;
    SegmentIncluded(before, after, entries, bootstrap, k);
  }

  lemma CoveredAppend(endpoint: string, a: seq<string>, b: seq<string>, ids: set<string>)
    requires AllCovered(endpoint, a, ids) && AllCovered(endpoint, b, ids)
    ensures AllCovered(endpoint, a + b, ids)
  {
  }

  /** The lines a call returned for a file extend what was dealt with before. */
  lemma PolledLines(src: Source, entries: seq<Entry>, maxBytes: nat, saved: bool, ids: set<string>, ids': set<string>,
                    p: string)
    requires TrackedOk(src, ids) && ids <= ids' && ListsSome(entries, src.disk) && maxBytes > 0
    requires AllCovered(src.endpoint, ReadNewLines(src.t, entries, maxBytes, saved).1, ids')
    requires p in AfterPoll(src, entries, maxBytes, saved).t.files
    ensures var src' := AfterPoll(src, entries, maxBytes, saved);
            LinesCovered(src', p, src'.t.files[p].safeOffset, ids')
  {
    hide ReadNewLines, FileOk, CompleteLines, Covered, Segments, ShareOf;
    var src' := AfterPoll(src, entries, maxBytes, saved);
    ListedDelivers(src.t, entries, maxBytes, saved, src.disk, src.floor);
    ShareIncluded(src.t.files, src'.t.files, entries, src.disk, src.t.bootstrap, p);
    var before: seq<string> :=
      if p in src.t.files then CompleteLines(src.disk[p][src.floor[p]..src.t.files[p].safeOffset]) else [];
    var share := ShareOf(src.t.files, src'.t.files, src.disk, src.t.bootstrap, p);
    BeforeIsExact(src, ids, p);
    if p in src.t.files { FloorKept(src, src'.t.files, p); }
    ShareContinues(src.t.files, src'.t.files, src.disk, src.t.bootstrap, p, before, src'.floor[p]);
    CoveredMono(src.endpoint, before, ids, ids');
    assert AllCovered(src.endpoint, share, ids');
    CoveredAppend(src.endpoint, before, share, ids');
  }

  /** A file that is read soundly keeps its floor. */
  lemma FloorKept(src: Source, files: map<string, FileState>, p: string)
    requires FilesOk(src.t.files, src.disk, src.floor) && p in src.t.files
    ensures StartAt(src.floor, src.t.files, files, src.disk, src.t.bootstrap, p) == src.floor[p]
  {
    hide OneLine;
  }

  lemma BeforeIsExact(src: Source, ids: set<string>, p: string)
    requires TrackedOk(src, ids)
    ensures p in src.t.files ==>
      && p in src.disk && p in src.floor && src.floor[p] <= src.t.files[p].safeOffset <= |src.disk[p]|
      && AllCovered(src.endpoint, CompleteLines(src.disk[p][src.floor[p]..src.t.files[p].safeOffset]), ids)
  {
    hide CompleteLines, Covered;
  }

  lemma PolledTracked(src: Source, entries: seq<Entry>, maxBytes: nat, saved: bool, ids: set<string>, ids': set<string>)
    requires TrackedOk(src, ids) && ids <= ids' && ListsSome(entries, src.disk)
    requires AllCovered(src.endpoint, ReadNewLines(src.t, entries, maxBytes, saved).1, ids')
    ensures TrackedOk(AfterPoll(src, entries, maxBytes, saved), ids')
  {
    hide ReadNewLines, FileOk, LinesCovered, AllCovered, StartsAfter;
    var src' := AfterPoll(src, entries, maxBytes, saved);
    ListedDelivers(src.t, entries, maxBytes, saved, src.disk, src.floor);
    forall p <- src'.t.files ensures LinesCovered(src', p, src'.t.files[p].safeOffset, ids') {
      if maxBytes > 0 {
        PolledLines(src, entries, maxBytes, saved, ids, ids', p);
      } else {
        SameFloor(src, entries, saved, p);
        LinesCoveredMono(src, p, src.t.files[p].safeOffset, ids, ids');
        SameLines(src, src', p, src'.t.files[p].safeOffset, ids');
      }
    }
  }

  /** A call with no budget changes nothing for a tracked file. */
  lemma SameFloor(src: Source, entries: seq<Entry>, saved: bool, p: string)
    requires p in src.t.files && p in src.floor
    ensures var src' := AfterPoll(src, entries, 0, saved);
            src'.t == src.t && p in src'.floor && src'.floor[p] == src.floor[p]
  {
  }

  lemma SameLines(src: Source, src': Source, p: string, upTo: nat, ids: set<string>)
    requires LinesCovered(src, p, upTo, ids) && src'.endpoint == src.endpoint && src'.disk == src.disk
    requires p in src.floor && p in src'.floor && src'.floor[p] == src.floor[p]
    ensures LinesCovered(src', p, upTo, ids)
  {
    hide CompleteLines, Covered;
  }

  /** What a checkpoint means depends on the files and where their tracking
      started, not on what the tailer did since. */
  lemma SameCheckpoint(src: Source, src': Source, c: map<string, nat>, archive: set<string>)
    requires CheckpointOk(src, c, archive)
    requires src'.endpoint == src.endpoint && src'.disk == src.disk && src'.floor == src.floor
    ensures CheckpointOk(src', c, archive)
  {
    hide FileOk, LinesCovered;
    forall p <- c ensures LinesCovered(src', p, c[p], archive) && p in src'.disk && p in src'.floor
                          && FileOk(FileState(c[p], c[p], ""), src'.disk[p], src'.floor[p]) {
      OnDisk(src, p, c[p], archive);
      SameLines(src, src', p, c[p], archive);
    }
  }

  /** What the tailer's own fields become. */
  lemma PolledFields(t: Tailer, entries: seq<Entry>, maxBytes: nat, saved: bool, disk: Disk)
    requires ListsSome(entries, disk)
    ensures var t' := ReadNewLines(t, entries, maxBytes, saved).0;
            && (maxBytes > 0 ==> !t'.bootstrap) && (maxBytes == 0 ==> t' == t)
            && (maxBytes > 0 && t.bootstrap && saved ==>
                  t'.checkpoint.Some? && forall p <- t'.files :: p in t'.checkpoint.value
                                                                  && t'.checkpoint.value[p] == t'.files[p].safeOffset)
            && (!(maxBytes > 0 && t.bootstrap && saved) ==> t'.checkpoint == t.checkpoint)
  {
    hide ReadUpTo, Lists;
  }

  /** The bootstrapping call records the ends of the files it skipped: there is no line before them to deliver. */
  lemma BootstrapCheckpoint(src: Source, entries: seq<Entry>, maxBytes: nat, saved: bool, archive: set<string>,
                            current: set<string>)
    requires SourceOk(src, archive, current) && ListsSome(entries, src.disk)
    requires maxBytes > 0 && src.t.bootstrap && saved
    ensures var src' := AfterPoll(src, entries, maxBytes, saved);
            && src'.t.checkpoint.Some? && src'.t.checkpoint.value.Keys == src'.t.files.Keys
            && src'.mark == src'.floor && CheckpointOk(src', src'.t.checkpoint.value, archive)
  {
    hide CompleteLines, Segments, ReadUpTo;
    var src' := AfterPoll(src, entries, maxBytes, saved);
    ListedDelivers(src.t, entries, maxBytes, saved, src.disk, src.floor);
    BootstrapKeys(src, entries, maxBytes, saved);
    hide ReadNewLines;
    OneLineHasNone("");
    var c := src'.t.checkpoint.value;
    forall p <- c ensures LinesCovered(src', p, c[p], archive) && p in src'.disk && p in src'.floor
                          && FileOk(FileState(c[p], c[p], ""), src'.disk[p], src'.floor[p]) {
      assert src'.floor[p] == c[p] == |src'.disk[p]|;
      assert src'.disk[p][c[p]..c[p]] == "";
    }
  }

  lemma BootstrapKeys(src: Source, entries: seq<Entry>, maxBytes: nat, saved: bool)
    requires maxBytes > 0 && src.t.bootstrap && saved && ListsSome(entries, src.disk)
    requires src.t.files == map[] && FilesOk(src.t.files, src.disk, src.floor)
    ensures var t' := ReadNewLines(src.t, entries, maxBytes, saved).0;
            && t'.checkpoint.Some? && t'.checkpoint.value.Keys == t'.files.Keys
            && forall p <- t'.files :: t'.checkpoint.value[p] == t'.files[p].safeOffset
  {
    hide ReadUpTo, FileOk, Segments, StartsAfter, ListsSome, Seen;
    var c := ReadUpTo(src.t, entries, maxBytes, |entries|);
    CallKeeps(src.t, entries, maxBytes, |entries|, src.disk, src.floor);
    forall p <- c.files ensures p in Paths(entries) {
      assert !SameFile(src.t.files, c.files, p);
      assert Seen(entries, |entries|, p);
      SeenIsListed(entries, p);
    }
  }

  lemma SeenIsListed(entries: seq<Entry>, p: string)
    requires Seen(entries, |entries|, p)
    ensures p in Paths(entries)
  {
    var i :| 0 <= i < |entries| && entries[i].path == p;
    assert entries[i] in entries;
  }

  /** Reading a source keeps it sound, whatever the listing order, the budget and the service were. */
  lemma PolledSource(src: Source, entries: seq<Entry>, maxBytes: nat, saved: bool, archive: set<string>,
                     current: set<string>, current': set<string>)
    requires SourceOk(src, archive, current) && ListsSome(entries, src.disk) && current <= current'
    requires AllCovered(src.endpoint, ReadNewLines(src.t, entries, maxBytes, saved).1, current')
    ensures SourceOk(AfterPoll(src, entries, maxBytes, saved), archive, current')
  {
    hide ReadNewLines, Lists, StartsAfter, CheckpointOk, TrackedOk;
    var src' := AfterPoll(src, entries, maxBytes, saved);
    CoveredMono(src.endpoint, ReadNewLines(src.t, entries, maxBytes, saved).1, current', archive + current');
    PolledTracked(src, entries, maxBytes, saved, archive + current, archive + current');
    PolledFields(src.t, entries, maxBytes, saved, src.disk);
    if maxBytes > 0 && src.t.bootstrap && saved {
      BootstrapCheckpoint(src, entries, maxBytes, saved, archive, current);
      SameCheckpoint(src', Marked(src'), src'.t.checkpoint.value, archive);
    } else if src.t.checkpoint.Some? {
      SameCheckpoint(Marked(src), Marked(src'), src.t.checkpoint.value, archive);
    }
  }

  // ---------------------------------------------------------------- commit and restart

  /** A commit records only lines that have all reached the log. */
  lemma CommittedSource(src: Source, archive: set<string>, current: set<string>)
    requires SourceOk(src, archive, current) && current <= archive
    ensures SourceOk(AfterCommit(src, true), archive, current)
  {
    hide LinesCovered, OneLine;
    assert archive + current == archive;
    var src' := AfterCommit(src, true);
    var c := src'.t.checkpoint.value;
    forall p <- c ensures LinesCovered(src', p, c[p], archive)
                          && p in src'.disk && p in src'.floor
                             && FileOk(FileState(c[p], c[p], ""), src'.disk[p], src'.floor[p]) {
      SameLines(src, Marked(src'), p, c[p], archive);
      EmptyPending(src.disk[p], c[p]);
    }
    forall p <- src'.t.files ensures LinesCovered(src', p, src'.t.files[p].safeOffset, archive + current) {
      SameLines(src, src', p, src.t.files[p].safeOffset, archive);
    }
  }

  lemma EmptyPending(content: string, at: nat)
    requires at <= |content|
    ensures content[at..at] == "" && OneLine("")
  {
  }

  /** After a crash the tailer stands exactly at its checkpoint. */
  lemma RestartedSource(src: Source, archive: set<string>, current: set<string>)
    requires SourceOk(src, archive, current)
    ensures SourceOk(Restarted(src), archive, {})
  {
    hide LinesCovered, FileOk;
    var src' := Restarted(src);
    assert archive + {} == archive;
    if src.t.checkpoint.Some? {
      var c := src.t.checkpoint.value;
      SameCheckpoint(Marked(src), src', c, archive);
      SameCheckpoint(Marked(src), Marked(src'), c, archive);
      forall p <- c ensures p in src'.disk && p in src'.floor { OnDisk(src', p, c[p], archive); }
    }
  }

  // ---------------------------------------------------------------- the world

  lemma UpdatedSources(sources: seq<Source>, i: nat, src: Source)
    requires i < |sources|
    ensures forall x <- sources[i := src] :: x == src || x in sources
  {
  }

  lemma AllSourcesMono(sources: seq<Source>, archive: set<string>, current: set<string>, archive': set<string>,
                       current': set<string>)
    requires forall src <- sources :: SourceOk(src, archive, current)
    requires archive <= archive' && archive + current <= archive' + current'
    ensures forall src <- sources :: SourceOk(src, archive', current')
  {
    forall src <- sources ensures SourceOk(src, archive', current') {
      SourceOkMono(src, archive, current, archive', current');
    }
  }

  lemma GrowKeeps(w: World, i: nat, path: string, text: string)
    requires WorldOk(w) && i < |w.sources|
    ensures WorldOk(w.(sources := w.sources[i := w.sources[i].(disk := GrowFile(w.sources[i].disk, path, text))]))
  {
    hide SourceOk, Inv, GrowFile;
    GrownSource(w.sources[i], path, text, w.archive, AcceptedIds(w.h));
    UpdatedSources(w.sources, i, w.sources[i].(disk := GrowFile(w.sources[i].disk, path, text)));
  }

  lemma ReadKeeps(sorter: seq<Candidate> -> seq<Candidate>, w: World, w': World, i: nat, entries: seq<Entry>,
                  maxBytes: nat, saved: bool, wall: int)
    requires IsSorter(sorter) && WorldOk(w) && Enabled(w, Read(i, entries, maxBytes, saved, wall))
    requires Next(sorter, w, Read(i, entries, maxBytes, saved, wall), w')
    ensures WorldOk(w')
  {
    hide SourceOk, Inv, AcceptedIds, Ingest, ReadNewLines, Lists, IsSorter, AllCovered, AfterPoll;
    var src := w.sources[i];
    var lines := ReadNewLines(src.t, entries, maxBytes, saved).1;
    CallLinesAreText(src, w.archive, AcceptedIds(w.h), entries, maxBytes, saved);
    var h := IngestAllCovers(sorter, w.engine, w.h, src.endpoint, lines, wall);
    SameAccepted(h, w'.h);
    AcceptedGrow(w.h, w'.h);
    var current, current' := AcceptedIds(w.h), AcceptedIds(w'.h);
    PolledSource(src, entries, maxBytes, saved, w.archive, current, current');
    AllSourcesMono(w.sources, w.archive, current, w.archive, current');
    UpdatedSources(w.sources, i, AfterPoll(src, entries, maxBytes, saved));
    if w'.engine.groups == [] && w'.engine.forced == [] {
      NothingForced(sorter, w.engine, src.endpoint, lines, wall);
      assert w'.h.accepted == w.h.accepted;
      SameAccepted(w.h, w'.h);
    }
  }

  lemma SameAccepted(h: History, h': History)
    requires h.accepted == h'.accepted
    ensures AcceptedIds(h) == AcceptedIds(h')
  {
  }

  /** A batch that leaves nothing pending accepted nothing and forced nothing out. */
  lemma {:induction false} NothingForced(sorter: seq<Candidate> -> seq<Candidate>, s: State, endpoint: string,
                                         lines: seq<string>, wall: int)
    requires IsSorter(sorter) && IngestAll(sorter, s, endpoint, lines, wall).groups == []
    ensures AcceptedOf(sorter, s, endpoint, lines, wall) == []
    ensures s.groups == [] && IngestAll(sorter, s, endpoint, lines, wall).forced == s.forced
    decreases |lines|
  {
    hide Ingest, IsSorter, Observe;
    if lines != [] {
      var front, last := lines[..|lines| - 1], lines[|lines| - 1];
      var mid := IngestAll(sorter, s, endpoint, front, wall);
      PendingStays(sorter, mid, endpoint, last, wall);
      NothingForced(sorter, s, endpoint, front, wall);
      RefusedChangesNothing(sorter, mid, endpoint, last, wall);
      if Ingest(sorter, mid, endpoint, last, wall).1 {
        PendingAfterAccept(sorter, mid, endpoint, last, wall);
        assert false;
      }
    }
  }

  lemma RefusedChangesNothing(sorter: seq<Candidate> -> seq<Candidate>, s: State, endpoint: string, line: string,
                              wall: int)
    ensures var r := Ingest(sorter, s, endpoint, line, wall); !r.1 ==> r.0.groups == s.groups && r.0.forced == s.forced
  {
    hide Observe, LooksLikeObject, ExactIdentity, Place, Remember;
  }

  /** The lines of a call are never empty. */
  lemma CallLinesAreText(src: Source, archive: set<string>, current: set<string>, entries: seq<Entry>, maxBytes: nat,
                         saved: bool)
    requires SourceOk(src, archive, current) && ListsSome(entries, src.disk)
    ensures forall line <- ReadNewLines(src.t, entries, maxBytes, saved).1 :: line != ""
  {
    hide Segments, LinesCovered, FileOk, ReadNewLines, Lists;
    ListedDelivers(src.t, entries, maxBytes, saved, src.disk, src.floor);
    SegmentsAreText(src.t.files, ReadNewLines(src.t, entries, maxBytes, saved).0.files, entries, src.t.bootstrap);
  }

  lemma {:induction false} SegmentsAreText(before: map<string, FileState>, after: map<string, FileState>,
                                           entries: seq<Entry>, bootstrap: bool)
    ensures forall line <- Segments(before, after, entries, bootstrap) :: line != ""
  {
    hide CompleteLines;
    if entries != [] {
      var e := entries[|entries| - 1];
      SegmentsAreText(before, after, entries[..|entries| - 1], bootstrap);
      var from := From(before, after, e, bootstrap);
      if e.path in after && from <= after[e.path].safeOffset <= |e.content| {
        LinesAreClean(e.content[from..after[e.path].safeOffset]);
      }
    }
  }

  /** With nothing pending after a drain, every accepted identity belongs to a handed-out group. */
  lemma DrainedIsHandedOut(s: State, h: History)
    requires Inv(s, h) && s.groups == [] && s.forced == []
    ensures |h.home| == |h.accepted| && AcceptedIds(h) <= HandedOutIds(h)
  {
    hide Core, CountsOk, WindowOk, Kept, ExactIdentity;
    CoreOf(s, h);
    assert Out(s, h) == h.emitted;
    forall a <- h.accepted ensures ExactIdentity(a.record) in HandedOutIds(h) {
      var k :| 0 <= k < |h.accepted| && h.accepted[k] == a;
      assert Holds(h.evidence, h.home[k].group, h.home[k].member, k);
      assert HasId(h.emitted, h.home[k].group);
    }
  }

  lemma DrainWorldKeeps(sorter: seq<Candidate> -> seq<Candidate>, w: World, w': World, now: int, force: bool)
    requires WorldOk(w) && Next(sorter, w, DrainAll(now, force), w')
    ensures WorldOk(w')
  {
    hide SourceOk, Inv, Drain, HandedOutIds;
    var h := DrainKeeps(w.engine, w.h, now, force);
    assert h == w'.h;
    SameAccepted(w.h, w'.h);
    AllSourcesMono(w.sources, w.archive, AcceptedIds(w.h), w'.archive, AcceptedIds(w'.h));
    if w'.engine.groups == [] && w'.engine.forced == [] { DrainedIsHandedOut(w'.engine, w'.h); }
  }

  lemma CommitKeeps(w: World, i: nat, saved: bool)
    requires WorldOk(w) && Enabled(w, Commit(i, saved))
    ensures WorldOk(w.(sources := w.sources[i := AfterCommit(w.sources[i], saved)]))
  {
    hide SourceOk, Inv;
    var src := w.sources[i];
    CommittedSource(src, w.archive, AcceptedIds(w.h));
    UpdatedSources(w.sources, i, AfterCommit(src, saved));
  }

  lemma CrashKeeps(w: World, w': World)
    requires WorldOk(w) && w'.sources == RestartAll(w.sources) && w'.archive == w.archive && IsFresh(w'.engine)
             && IsBlank(w'.h)
    ensures WorldOk(w')
  {
    hide SourceOk, Inv, Restarted;
    EmptyHolds(w'.engine, w'.h);
    assert AcceptedIds(w'.h) == {};
    forall x <- w'.sources ensures SourceOk(x, w'.archive, AcceptedIds(w'.h)) {
      var i :| 0 <= i < |w'.sources| && w'.sources[i] == x;
      RestartedSource(w.sources[i], w.archive, AcceptedIds(w.h));
    }
  }

  /** Every step keeps the world sound. */
  lemma StepKeeps(sorter: seq<Candidate> -> seq<Candidate>, w: World, step: Step, w': World)
    requires IsSorter(sorter) && WorldOk(w) && Enabled(w, step) && Next(sorter, w, step, w')
    ensures WorldOk(w')
  {
    hide WorldOk, IsSorter;
    match step
    case Grow(i, path, text) => GrowKeeps(w, i, path, text);
    case Read(i, entries, maxBytes, saved, wall) => ReadKeeps(sorter, w, w', i, entries, maxBytes, saved, wall);
    case DrainAll(now, force) => DrainWorldKeeps(sorter, w, w', now, force);
    case Commit(i, saved) => CommitKeeps(w, i, saved);
    case Crash => CrashKeeps(w, w');
  }

  /** A step that may be taken can be taken: the bookkeeping it asks for exists. */
  lemma StepIsPossible(sorter: seq<Candidate> -> seq<Candidate>, w: World, step: Step) returns (w': World)
    requires IsSorter(sorter) && WorldOk(w) && Enabled(w, step)
    ensures Next(sorter, w, step, w')
  {
    hide Inv, IsSorter, SourceOk, Ingest, Drain, ReadNewLines, Lists, AllCovered, AfterPoll, HandedOutIds, AcceptedIds;
    match step
    case Grow(i, path, text) =>
      w' := w.(sources := w.sources[i := w.sources[i].(disk := GrowFile(w.sources[i].disk, path, text))]);
    case Read(i, entries, maxBytes, saved, wall) =>
      var src := w.sources[i];
      var lines := ReadNewLines(src.t, entries, maxBytes, saved).1;
      CallLinesAreText(src, w.archive, AcceptedIds(w.h), entries, maxBytes, saved);
      var h := IngestAllCovers(sorter, w.engine, w.h, src.endpoint, lines, wall);
      w' := World(w.sources[i := AfterPoll(src, entries, maxBytes, saved)],
                  IngestAll(sorter, w.engine, src.endpoint, lines, wall), h, w.archive);
    case DrainAll(now, force) =>
      var h := DrainKeeps(w.engine, w.h, now, force);
      HomesCount(Drain(w.engine, now, force).0, h);
      w' := World(w.sources, Drain(w.engine, now, force).0, h, w.archive + HandedOutIds(h));
    case Commit(i, saved) =>
      w' := w.(sources := w.sources[i := AfterCommit(w.sources[i], saved)]);
    case Crash => w' := World(RestartAll(w.sources), EMPTY, History([], map[], [], []), w.archive);
  }

  lemma HomesCount(s: State, h: History)
    requires Inv(s, h)
    ensures |h.home| == |h.accepted|
  {
    hide CountsOk, WindowOk, AllBacked;
  }

  // ---------------------------------------------------------------- whole runs

  /** A run: every step is enabled and leads to the next world. */
  ghost predicate IsRun(sorter: seq<Candidate> -> seq<Candidate>, ws: seq<World>, steps: seq<Step>) {
    && |ws| == |steps| + 1
    && forall k :: 0 <= k < |steps| ==> Enabled(ws[k], steps[k]) && Next(sorter, ws[k], steps[k], ws[k + 1])
  }

  lemma {:induction false} EveryRunIsSound(sorter: seq<Candidate> -> seq<Candidate>, ws: seq<World>, steps: seq<Step>,
                                           k: nat)
    requires IsSorter(sorter) && IsRun(sorter, ws, steps) && WorldOk(ws[0]) && k < |ws|
    ensures WorldOk(ws[k])
    decreases k
  {
    hide WorldOk, IsSorter, Next, Enabled;
    if k > 0 {
      EveryRunIsSound(sorter, ws, steps, k - 1);
      StepKeeps(sorter, ws[k - 1], steps[k - 1], ws[k - 1 + 1]);
    }
  }

  /** The first start of the correlator: no checkpoint, nothing tracked, whatever is already on disk. */
  ghost predicate FirstStart(w: World) {
    && IsFresh(w.engine) && IsBlank(w.h) && w.archive == {}
    && forall src <- w.sources :: src.t == Start(None, true) && src.origin == None
  }

  lemma FirstStartIsSound(w: World)
    requires FirstStart(w)
    ensures WorldOk(w)
  {
    hide Inv;
    EmptyHolds(w.engine, w.h);
  }

  // ---------------------------------------------------------------- what a sound world says of one file

  /** The complete lines between the point where a checkpointed file's tracking
      started and its offset are delivered, the file's remaining complete lines are
      those from the offset on, and a crash now restarts the reader exactly there. */
  lemma CheckpointedFile(w: World, src: Source, p: string)
    requires WorldOk(w) && src in w.sources && src.t.checkpoint.Some? && p in src.t.checkpoint.value
    ensures LinesCovered(Marked(src), p, src.t.checkpoint.value[p], w.archive)
    ensures var offset := src.t.checkpoint.value[p];
            && CompleteLines(src.disk[p][src.mark[p]..])
               == CompleteLines(src.disk[p][src.mark[p]..offset]) + CompleteLines(src.disk[p][offset..])
            && p in Restarted(src).t.files && Restarted(src).t.files[p] == FileState(offset, offset, "")
  {
    hide Inv, CompleteLines, Covered, TrackedOk;
    assert SourceOk(src, w.archive, AcceptedIds(w.h));
    var offset := src.t.checkpoint.value[p];
    assert LinesCovered(Marked(src), p, offset, w.archive);
    var content := src.disk[p];
    LinesGrow(content, src.mark[p], offset, |content|);
    assert content[src.mark[p]..|content|] == content[src.mark[p]..] && content[offset..|content|] == content[offset..];
  }

  /** Every complete line between a tracked file's floor and its safe offset is
      delivered, or the running engine holds it. */
  lemma TrackedFile(w: World, src: Source, p: string)
    requires WorldOk(w) && src in w.sources && p in src.t.files
    ensures LinesCovered(src, p, src.t.files[p].safeOffset, w.archive + AcceptedIds(w.h))
  {
    hide Inv, CompleteLines, Covered, CheckpointOk;
    assert SourceOk(src, w.archive, AcceptedIds(w.h));
  }
}
