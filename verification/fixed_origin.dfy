/** At-least-once delivery, counted from where each file stood at the first bootstrap of the whole run, and the one kind
    of crash that breaks it: after a bootstrap whose checkpoint was never written. */
module FixedOrigin {
  import opened Text
  import opened LineSplit
  import opened TailerSpec
  import opened TailerTheorems
  import opened UnifiedSpec
  import opened UnifiedInvariant
  import opened Pipeline
  import opened AtLeastOnce

  // ---------------------------------------------------------------- what is promised

  /** Bytes a to b of a file, up to its newline at b, are one whole line. */
  predicate LineAt(content: string, a: nat, b: nat) {
    && a <= b < |content| && content[b] == '\n' && OneLine(content[a..b])
    && (a == 0 || content[a - 1] == '\n')
  }

  /** Where a file stood at the first bootstrap; a file that appeared later stood at 0. */
  function OriginAt(src: Source, p: string): nat {
    if src.origin.Some? && p in src.origin.value then src.origin.value[p] else 0
  }

  /** The line from a to b is not an object or carries one of the identities. */
  predicate LineCovered(src: Source, p: string, a: nat, b: nat, ids: set<string>)
    requires p in src.disk && LineAt(src.disk[p], a, b)
  {
    AllCovered(src.endpoint, Cleaned(src.disk[p][a..b]), ids)
  }

  /** Every line of the file from its origin on that ends before `upTo` is dealt with. */
  ghost predicate Promised(src: Source, p: string, upTo: nat, ids: set<string>) {
    && p in src.disk && upTo <= |src.disk[p]|
    && forall a: nat, b: nat :: OriginAt(src, p) <= a && b < upTo && LineAt(src.disk[p], a, b) ==>
       LineCovered(src, p, a, b, ids)
  }

  /** Whatever a checkpoint skips has been delivered. */
  ghost predicate Delivered(w: World) {
    forall src <- w.sources, p: string ::
      src.t.checkpoint.Some? && p in src.t.checkpoint.value ==> Promised(src, p, src.t.checkpoint.value[p], w.archive)
  }

  /** No source has finished its bootstrap without a checkpoint. */
  predicate Recorded(src: Source) { src.t.bootstrap || src.t.checkpoint.Some? }

  predicate AllRecorded(w: World) { forall src <- w.sources :: Recorded(src) }

  /** A run from the first start in which no crash comes between a bootstrap and its first written checkpoint. */
  ghost predicate CleanRun(sorter: seq<Candidate> -> seq<Candidate>, ws: seq<World>, steps: seq<Step>) {
    && IsRun(sorter, ws, steps) && FirstStart(ws[0])
    && forall j :: 0 <= j < |steps| && steps[j].Crash? ==> AllRecorded(ws[j])
  }

  // ---------------------------------------------------------------- whole lines among the lines read

  lemma LineStarts(text: string, n: nat)
    requires n < |text| && OneLine(text[..n]) && text[n] == '\n'
    ensures LineEnd(text) == n
  {
    forall i | 0 <= i < n ensures text[i] != '\n' { assert text[..n][i] == text[i]; }
  }

  /** A whole line inside a stretch that is read is among the stretch's lines. */
  lemma LineIsAmong(content: string, from: nat, upTo: nat, a: nat, b: nat)
    requires from <= a && b < upTo <= |content| && LineAt(content, a, b)
    ensures forall line <- Cleaned(content[a..b]) :: line in CompleteLines(content[from..upTo])
  {
    hide CompleteLines, Cleaned, LineEnd;
    LinesGrow(content, from, a, upTo);
    var text := content[a..upTo];
    assert text[..b - a] == content[a..b] && text[b - a] == content[b];
    LineStarts(text, b - a);
    LinesOf(text);
  }

  lemma CoveredLine(src: Source, p: string, upTo: nat, ids: set<string>, a: nat, b: nat)
    requires LinesCovered(src, p, upTo, ids) && src.floor[p] <= a && b < upTo && LineAt(src.disk[p], a, b)
    ensures LineCovered(src, p, a, b, ids)
  {
    hide CompleteLines, Cleaned, Covered, LineAt;
    LineIsAmong(src.disk[p], src.floor[p], upTo, a, b);
  }

  lemma FloorPromises(src: Source, p: string, upTo: nat, ids: set<string>)
    requires LinesCovered(src, p, upTo, ids) && src.floor[p] <= OriginAt(src, p)
    ensures Promised(src, p, upTo, ids)
  {
    hide LineAt, LineCovered;
    assert upTo <= |src.disk[p]| by { Inside(src, p, upTo, ids); }
    forall a: nat, b: nat | OriginAt(src, p) <= a && b < upTo && LineAt(src.disk[p], a, b)
      ensures LineCovered(src, p, a, b, ids) {
      CoveredLine(src, p, upTo, ids, a, b);
    }
  }

  lemma Inside(src: Source, p: string, upTo: nat, ids: set<string>)
    requires LinesCovered(src, p, upTo, ids)
    ensures p in src.disk && upTo <= |src.disk[p]|
  {
    hide AllCovered, CompleteLines;
  }

  // ---------------------------------------------------------------- the reader never starts after the origin

  ghost predicate Anchored(src: Source) {
    && (src.t.bootstrap ==> src.origin == None)
    && (src.t.bootstrap || src.origin.Some? || src.t.checkpoint.Some?)
    && (forall p <- src.t.files :: p in src.floor && src.floor[p] <= OriginAt(src, p))
    && (src.t.checkpoint.Some? ==>
          forall p <- src.t.checkpoint.value :: p in src.mark && src.mark[p] <= OriginAt(src, p))
  }

  ghost predicate AllAnchored(w: World) { forall src <- w.sources :: Anchored(src) }

  /** The first bootstrap over the run fixes the origin at the ends of the files it skips. */
  lemma BootstrapAnchors(src: Source, archive: set<string>, current: set<string>, entries: seq<Entry>, maxBytes: nat,
                         saved: bool)
    requires Anchored(src) && SourceOk(src, archive, current) && ListsSome(entries, src.disk) && src.t.bootstrap
             && maxBytes > 0
    ensures Anchored(AfterPoll(src, entries, maxBytes, saved))
  {
    hide ReadNewLines, FileOk, LinesCovered, ListsSome, CheckpointOk;
    var src' := AfterPoll(src, entries, maxBytes, saved);
    ListedDelivers(src.t, entries, maxBytes, saved, src.disk, src.floor);
    PolledFields(src.t, entries, maxBytes, saved, src.disk);
    forall p <- src'.t.files ensures p in src'.floor && src'.floor[p] <= OriginAt(src', p) {
      StartBeforeSafe(src'.t.files[p], src'.disk[p], src'.floor[p]);
    }
    if saved { BootstrapKeys(src, entries, maxBytes, saved); }
  }

  lemma StartBeforeSafe(f: FileState, content: string, start: nat)
    requires FileOk(f, content, start)
    ensures start <= f.safeOffset
  {
  }

  /** Any other call starts new files at 0 and leaves the rest. */
  lemma PollAnchors(src: Source, archive: set<string>, current: set<string>, entries: seq<Entry>, maxBytes: nat,
                    saved: bool)
    requires Anchored(src) && SourceOk(src, archive, current) && ListsSome(entries, src.disk)
             && !(src.t.bootstrap && maxBytes > 0)
    ensures Anchored(AfterPoll(src, entries, maxBytes, saved))
  {
    hide ReadNewLines, FileOk, LinesCovered, ListsSome, CheckpointOk;
    var src' := AfterPoll(src, entries, maxBytes, saved);
    PolledFields(src.t, entries, maxBytes, saved, src.disk);
    ListedDelivers(src.t, entries, maxBytes, saved, src.disk, src.floor);
  }

  lemma ReadAnchors(src: Source, archive: set<string>, current: set<string>, entries: seq<Entry>, maxBytes: nat,
                    saved: bool)
    requires Anchored(src) && SourceOk(src, archive, current) && ListsSome(entries, src.disk)
    ensures Anchored(AfterPoll(src, entries, maxBytes, saved))
  {
    hide Anchored, SourceOk, ListsSome, AfterPoll;
    if src.t.bootstrap && maxBytes > 0 {
      BootstrapAnchors(src, archive, current, entries, maxBytes, saved);
    } else {
      PollAnchors(src, archive, current, entries, maxBytes, saved);
    }
  }

  lemma CommitAnchors(src: Source)
    requires Anchored(src)
    ensures Anchored(AfterCommit(src, true))
  {
  }

  lemma RestartAnchors(src: Source)
    requires Anchored(src) && Recorded(src)
    ensures Anchored(Restarted(src))
  {
  }

  lemma StepAnchors(sorter: seq<Candidate> -> seq<Candidate>, w: World, step: Step, w': World)
    requires WorldOk(w) && AllAnchored(w) && Enabled(w, step) && Next(sorter, w, step, w')
    requires step.Crash? ==> AllRecorded(w)
    ensures AllAnchored(w')
  {
    hide SourceOk, Anchored, Inv, Recorded, ListsSome, AfterPoll, GrowFile, AfterCommit, Restarted, ReadNewLines, Drain;
    match step
    case Grow(i, path, text) =>
      GrowAnchors(w.sources[i], path, text);
      UpdatedSources(w.sources, i, w'.sources[i]);
    case Read(i, entries, maxBytes, saved, wall) =>
      ReadAnchors(w.sources[i], w.archive, AcceptedIds(w.h), entries, maxBytes, saved);
      UpdatedSources(w.sources, i, AfterPoll(w.sources[i], entries, maxBytes, saved));
    case DrainAll(now, force) =>
    case Commit(i, saved) =>
      CommitAnchors(w.sources[i]);
      NotCommitted(w.sources[i]);
      UpdatedSources(w.sources, i, w'.sources[i]);
    case Crash =>
      forall x <- w'.sources ensures Anchored(x) {
        var i :| 0 <= i < |w'.sources| && w'.sources[i] == x;
        RestartAnchors(w.sources[i]);
      }
  }

  lemma NotCommitted(src: Source)
    ensures AfterCommit(src, false) == src
  {
  }

  lemma GrowAnchors(src: Source, path: string, text: string)
    requires Anchored(src)
    ensures Anchored(src.(disk := GrowFile(src.disk, path, text)))
  {
  }

  lemma FirstAnchored(w: World)
    requires FirstStart(w)
    ensures AllAnchored(w)
  {
  }

  lemma {:induction false} CleanRunKeeps(sorter: seq<Candidate> -> seq<Candidate>, ws: seq<World>, steps: seq<Step>,
                                         k: nat)
    requires IsSorter(sorter) && IsRun(sorter, ws, steps) && k < |ws| && WorldOk(ws[0]) && AllAnchored(ws[0])
    requires forall j :: 0 <= j < k && steps[j].Crash? ==> AllRecorded(ws[j])
    ensures WorldOk(ws[k]) && AllAnchored(ws[k])
    decreases k
  {
    hide WorldOk, AllAnchored, AllRecorded, IsSorter, Next, Enabled;
    if k > 0 {
      CleanRunKeeps(sorter, ws, steps, k - 1);
      StepKeeps(sorter, ws[k - 1], steps[k - 1], ws[k - 1 + 1]);
      StepAnchors(sorter, ws[k - 1], steps[k - 1], ws[k - 1 + 1]);
    }
  }

  /** The origin of a source never changes once it is set. */
  lemma {:induction false} OriginIsFixed(sorter: seq<Candidate> -> seq<Candidate>, ws: seq<World>, steps: seq<Step>,
                                         j: nat, k: nat, i: nat)
    requires IsRun(sorter, ws, steps) && j <= k < |ws| && i < |ws[j].sources| && ws[j].sources[i].origin.Some?
    ensures i < |ws[k].sources| && ws[k].sources[i].origin == ws[j].sources[i].origin
    decreases k
  {
    hide Inv, ReadNewLines, Drain, GrowFile, ListsSome, AcceptedOf, HandedOutIds, IngestAll;
    if j < k {
      OriginIsFixed(sorter, ws, steps, j, k - 1, i);
      assert Next(sorter, ws[k - 1], steps[k - 1], ws[k - 1 + 1]);
    }
  }

  // ---------------------------------------------------------------- what a clean run delivers

  lemma MarkedPromises(src: Source, p: string, upTo: nat, ids: set<string>)
    requires Promised(Marked(src), p, upTo, ids)
    ensures Promised(src, p, upTo, ids)
  {
    hide LineAt;
    forall a: nat, b: nat | OriginAt(src, p) <= a && b < upTo && LineAt(src.disk[p], a, b)
      ensures LineCovered(src, p, a, b, ids) {
      assert LineCovered(Marked(src), p, a, b, ids);
    }
  }

  lemma AnchoredDelivers(w: World)
    requires WorldOk(w) && AllAnchored(w)
    ensures Delivered(w)
  {
    hide WorldOk, Promised, LinesCovered;
    forall src <- w.sources, p: string | src.t.checkpoint.Some? && p in src.t.checkpoint.value
      ensures Promised(src, p, src.t.checkpoint.value[p], w.archive)
    {
      assert Anchored(src);
      CheckpointedFile(w, src, p);
      FloorPromises(Marked(src), p, src.t.checkpoint.value[p], w.archive);
      MarkedPromises(src, p, src.t.checkpoint.value[p], w.archive);
    }
  }

  lemma NoNewlineInside(content: string, a: nat, b: nat, at: nat)
    requires LineAt(content, a, b)
    ensures a < at <= b ==> content[at - 1] != '\n'
  {
    var line := content[a..b];
    assert forall i :: a <= i < b ==> content[i] == line[i - a];
  }

  /** A whole line from the origin on ends before the recorded offset or starts at or after it. */
  lemma NoLineAcross(w: World, src: Source, p: string, a: nat, b: nat)
    requires WorldOk(w) && Anchored(src) && src in w.sources && src.t.checkpoint.Some? && p in src.t.checkpoint.value
    requires p in src.disk && OriginAt(src, p) <= a && LineAt(src.disk[p], a, b)
    ensures b < src.t.checkpoint.value[p] || src.t.checkpoint.value[p] <= a
  {
    hide WorldOk, Anchored, OneLine;
    RecordedAtBoundary(w, src, p);
    NoNewlineInside(src.disk[p], a, b, src.t.checkpoint.value[p]);
  }

  lemma RecordedAtBoundary(w: World, src: Source, p: string)
    requires WorldOk(w) && Anchored(src) && src in w.sources && src.t.checkpoint.Some? && p in src.t.checkpoint.value
    ensures var offset := src.t.checkpoint.value[p];
            && p in src.mark && src.mark[p] <= OriginAt(src, p) && p in src.disk && offset <= |src.disk[p]|
            && FileOk(FileState(offset, offset, ""), src.disk[p], src.mark[p])
  {
    hide Inv, AllCovered, CompleteLines, TrackedOk, OneLine;
    assert SourceOk(src, w.archive, AcceptedIds(w.h));
    assert LinesCovered(Marked(src), p, src.t.checkpoint.value[p], w.archive);
  }

  /** Where the next process resumes a file: at its recorded offset, or at its
      beginning if the checkpoint does not name it. */
  function ResumeAt(src: Source, p: string): nat {
    if src.t.checkpoint.Some? && p in src.t.checkpoint.value then src.t.checkpoint.value[p] else 0
  }

  /** At-least-once delivery, at any moment of any run with growth, reads of any listing, drains, commits and
      crashes, none of which comes between a bootstrap and its first written checkpoint: a process that starts
      now on a written checkpoint does not bootstrap again and resumes every file at its recorded offset, or
      at its beginning if the checkpoint does not name it. A whole line of any file, from the file's origin
      on, either ends before that point, and is not an object or carries the identity of a record in a logged
      group; or it starts at or after it, and is among the lines that are still to be read. */
  lemma NothingIsLost(sorter: seq<Candidate> -> seq<Candidate>, ws: seq<World>, steps: seq<Step>, k: nat, src: Source,
                      p: string, a: nat, b: nat)
    requires IsSorter(sorter) && CleanRun(sorter, ws, steps) && k < |ws|
    requires src in ws[k].sources && src.t.checkpoint.Some?
    ensures p in src.t.checkpoint.value ==> p in src.disk && ResumeAt(src, p) <= |src.disk[p]|
    ensures p in src.disk && OriginAt(src, p) <= a && LineAt(src.disk[p], a, b) ==>
              || (b < ResumeAt(src, p) && LineCovered(src, p, a, b, ws[k].archive))
              || (ResumeAt(src, p) <= a
                  && forall line <- Cleaned(src.disk[p][a..b]) ::
                     line in CompleteLines(src.disk[p][ResumeAt(src, p)..]))
    ensures var t := Restarted(src).t;
            !t.bootstrap && StateOf(t.files, p) == FileState(ResumeAt(src, p), ResumeAt(src, p), "")
  {
    hide WorldOk, Next, Enabled, IsSorter, LineAt, LineCovered, CompleteLines, Cleaned, LinesCovered, AllRecorded,
         FirstStart, Anchored;
    FirstStartIsSound(ws[0]);
    FirstAnchored(ws[0]);
    CleanRunKeeps(sorter, ws, steps, k);
    AnchoredDelivers(ws[k]);
    if p in src.t.checkpoint.value { assert Promised(src, p, ResumeAt(src, p), ws[k].archive); }
    if p in src.disk && OriginAt(src, p) <= a && LineAt(src.disk[p], a, b) {
      if p in src.t.checkpoint.value { NoLineAcross(ws[k], src, p, a, b); }
      if ResumeAt(src, p) <= a { ReadAgain(src.disk[p], ResumeAt(src, p), a, b); }
    }
  }

  lemma ReadAgain(content: string, offset: nat, a: nat, b: nat)
    requires offset <= a && LineAt(content, a, b)
    ensures forall line <- Cleaned(content[a..b]) :: line in CompleteLines(content[offset..])
  {
    hide CompleteLines, Cleaned;
    LineIsAmong(content, offset, |content|, a, b);
    assert content[offset..|content|] == content[offset..];
  }

  /** Between commits of such a run: every whole line of a tracked file, from its origin on, that ends before its safe
      offset is not an object, was delivered, or carries the identity of a record the running engine has accepted. */
  lemma EveryReadLineIsAccountedFor(sorter: seq<Candidate> -> seq<Candidate>, ws: seq<World>, steps: seq<Step>, k: nat,
                                    src: Source, p: string)
    requires IsSorter(sorter) && CleanRun(sorter, ws, steps) && k < |ws|
    requires src in ws[k].sources && p in src.t.files
    ensures Promised(src, p, src.t.files[p].safeOffset, ws[k].archive + AcceptedIds(ws[k].h))
  {
    hide WorldOk, Next, Enabled, IsSorter, LinesCovered, AllRecorded, FirstStart, Promised;
    FirstStartIsSound(ws[0]);
    FirstAnchored(ws[0]);
    CleanRunKeeps(sorter, ws, steps, k);
    TrackedFile(ws[k], src, p);
    assert Anchored(src);
    FloorPromises(src, p, src.t.files[p].safeOffset, ws[k].archive + AcceptedIds(ws[k].h));
  }
}
