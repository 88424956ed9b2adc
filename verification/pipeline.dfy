/** CORRELATOR/main.cpp: tailers feed the engine, the engine's groups are logged, read offsets are committed
    only when nothing is pending. The world below can also crash at any point. */
module Pipeline {
  import opened Text
  import opened TailerSpec
  import opened TailerTheorems
  import opened UnifiedSpec
  import opened UnifiedHistory
  import opened UnifiedPlaces
  import opened UnifiedInvariant
  import opened UnifiedTheorems

  /** One configured source: its files and its tailer; `floor` is the offset from which the present
      tracking of each file has read it (0, or the end of the file at the call that bootstrapped
      it); `mark` is the floor as it was when the checkpoint was written; `origin` is where every
      file stood at the first bootstrap over the whole run, and never changes afterwards. */
  datatype Source = Source(endpoint: string, disk: Disk, t: Tailer, floor: map<string, nat>, mark: map<string, nat>,
                           origin: Option<map<string, nat>>)

  /** `h` is the history of the running process; `archive` the identities of all records, of this or an earlier
      process, that sit in a group that was handed to the log. */
  datatype World = World(sources: seq<Source>, engine: State, h: History, archive: set<string>)

  // ---------------------------------------------------------------- what it means for a line to be dealt with

  /** Not an object, so counted as a parse failure; or carrying an identity among `ids`. */
  predicate Covered(endpoint: string, line: string, ids: set<string>) {
    !LooksLikeObject(line) || ExactIdentity(KeptRecord(endpoint, line)) in ids
  }

  predicate AllCovered(endpoint: string, lines: seq<string>, ids: set<string>) {
    forall line <- lines :: Covered(endpoint, line, ids)
  }

  function AcceptedIds(h: History): set<string> {
    set a | a in h.accepted :: ExactIdentity(a.record)
  }

  /** Identities of the records whose group has been handed out. */
  ghost function HandedOutIds(h: History): set<string>
    requires |h.home| == |h.accepted|
  {
    set k | 0 <= k < |h.accepted| && HasId(h.emitted, h.home[k].group) :: ExactIdentity(h.accepted[k].record)
  }

  // ---------------------------------------------------------------- feeding lines to the engine

  function IngestAll(sorter: seq<Candidate> -> seq<Candidate>, s: State, endpoint: string, lines: seq<string>,
                     wall: int): State {
    if lines == [] then s
    else Ingest(sorter, IngestAll(sorter, s, endpoint, lines[..|lines| - 1], wall), endpoint, lines[|lines| - 1],
                wall).0
  }

  /** The records a batch of lines adds, in order. */
  function AcceptedOf(sorter: seq<Candidate> -> seq<Candidate>, s: State, endpoint: string, lines: seq<string>,
                      wall: int): seq<Arrival> {
    if lines == [] then []
    else
      var front, last := lines[..|lines| - 1], lines[|lines| - 1];
      AcceptedOf(sorter, s, endpoint, front, wall)
      + if Ingest(sorter, IngestAll(sorter, s, endpoint, front, wall), endpoint, last, wall).1
        then [Observe(endpoint, last, wall)] else []
  }

  /** An accepted record is pending right after it was accepted. */
  lemma PendingAfterAccept(sorter: seq<Candidate> -> seq<Candidate>, s: State, endpoint: string, line: string,
                           wall: int)
    requires IsSorter(sorter) && Ingest(sorter, s, endpoint, line, wall).1
    ensures Ingest(sorter, s, endpoint, line, wall).0.groups != []
  {
    hide Observe, LooksLikeObject, ExactIdentity, Place;
    PlacedIsPending(sorter, Accept(sorter, s, Observe(endpoint, line, wall)).0, s, Observe(endpoint, line, wall));
  }

  lemma PlacedIsPending(sorter: seq<Candidate> -> seq<Candidate>, s': State, s: State, a: Arrival)
    requires IsSorter(sorter) && Accept(sorter, s, a) == (s', true)
    ensures s'.groups != []
  {
    hide FindRepeat, MergeAll, Extended, NewGroup, Compacted, CountEmitted, ExactIdentity;
    var raw := if a.operational then [] else Candidates(s.groups, a.record);
    assert multiset(sorter(raw)) == multiset(raw);
    if s.groups == [] {
      assert raw == [];
      assert |sorter(raw)| == |multiset(sorter(raw))| == 0;
    }
  }

  lemma CoveredMono(endpoint: string, lines: seq<string>, ids: set<string>, more: set<string>)
    requires AllCovered(endpoint, lines, ids) && ids <= more
    ensures AllCovered(endpoint, lines, more)
  {
  }

  lemma AcceptedGrow(h: History, h': History)
    requires h.accepted <= h'.accepted
    ensures AcceptedIds(h) <= AcceptedIds(h')
  {
    forall a <- h.accepted ensures a in h'.accepted {
      var k :| 0 <= k < |h.accepted| && h.accepted[k] == a;
      assert h'.accepted[k] == a;
    }
  }

  /** After a line was ingested its identity is among the accepted ones, unless it is not an object. */
  lemma IngestCovers(sorter: seq<Candidate> -> seq<Candidate>, s: State, h: History, endpoint: string, line: string,
                     wall: int)
    returns (h': History)
    requires IsSorter(sorter) && Inv(s, h) && line != ""
    ensures Inv(Ingest(sorter, s, endpoint, line, wall).0, h') && h'.emitted == h.emitted
    ensures h'.accepted
         == h.accepted + if Ingest(sorter, s, endpoint, line, wall).1 then [Observe(endpoint, line, wall)] else []
    ensures Covered(endpoint, line, AcceptedIds(h'))
    ensures Ingest(sorter, s, endpoint, line, wall).0.groups == [] ==> h'.accepted == h.accepted
  {
    hide Inv, Ingest, IsSorter, ExactIdentity, LooksLikeObject, KeptRecord;
    h' := IngestKeeps(sorter, s, h, endpoint, line, wall);
    var a := Observe(endpoint, line, wall);
    if Ingest(sorter, s, endpoint, line, wall).1 {
      PendingAfterAccept(sorter, s, endpoint, line, wall);
      assert h'.accepted[|h.accepted|] == a && a in h'.accepted;
    } else if LooksLikeObject(line) {
      var k :| WindowStart(|h.accepted|) <= k < |h.accepted|
        && ExactIdentity(h.accepted[k].record) == ExactIdentity(a.record);
      assert h.accepted[k] in h'.accepted;
    }
  }

  lemma {:induction false} IngestAllCovers(sorter: seq<Candidate> -> seq<Candidate>, s: State, h: History,
                                           endpoint: string, lines: seq<string>, wall: int) returns (h': History)
    requires IsSorter(sorter) && Inv(s, h) && forall line <- lines :: line != ""
    ensures Inv(IngestAll(sorter, s, endpoint, lines, wall), h') && h'.emitted == h.emitted
    ensures h'.accepted == h.accepted + AcceptedOf(sorter, s, endpoint, lines, wall)
    ensures AllCovered(endpoint, lines, AcceptedIds(h'))
    ensures IngestAll(sorter, s, endpoint, lines, wall).groups == [] ==> h'.accepted == h.accepted
    decreases |lines|
  {
    hide Inv, Ingest, IsSorter, Covered, AcceptedIds, Observe;
    if lines == [] {
      assert h.accepted + [] == h.accepted;
      return h;
    }
    var front, last := lines[..|lines| - 1], lines[|lines| - 1];
    assert last in lines && forall line <- front :: line in lines;
    var h1 := IngestAllCovers(sorter, s, h, endpoint, front, wall);
    h' := IngestCovers(sorter, IngestAll(sorter, s, endpoint, front, wall), h1, endpoint, last, wall);
    AcceptedGrow(h1, h');
    CoveredMono(endpoint, front, AcceptedIds(h1), AcceptedIds(h'));
    assert lines == front + [last];
    PendingStays(sorter, IngestAll(sorter, s, endpoint, front, wall), endpoint, last, wall);
  }

  /** A line never empties the list of pending groups. */
  lemma PendingStays(sorter: seq<Candidate> -> seq<Candidate>, s: State, endpoint: string, line: string, wall: int)
    requires IsSorter(sorter)
    ensures s.groups != [] ==> Ingest(sorter, s, endpoint, line, wall).0.groups != []
  {
    hide Observe, LooksLikeObject, ExactIdentity, Place, IsSorter;
    var r := Ingest(sorter, s, endpoint, line, wall);
    if r.1 { PendingAfterAccept(sorter, s, endpoint, line, wall); }
  }

  // ---------------------------------------------------------------- steps of the world

  /** Growth of a file; one source read and ingested; a drain whose groups are logged; one source committed;
      a crash, after which the process starts again from the checkpoints with an empty engine. */
  datatype Step =
    | Grow(i: nat, path: string, text: string)
    | Read(i: nat, entries: seq<Entry>, maxBytes: nat, saved: bool, wall: int)
    | DrainAll(now: int, force: bool)
    | Commit(i: nat, saved: bool)
    | Crash

  /** A read may be given any listing, complete or not. Commits happen only when the engine holds nothing back. */
  ghost predicate Enabled(w: World, step: Step) {
    match step
    case Grow(i, _, _) => i < |w.sources|
    case Read(i, entries, _, _, _) => i < |w.sources| && ListsSome(entries, w.sources[i].disk)
    case DrainAll(_, _) => true
    case Commit(i, _) => i < |w.sources| && w.engine.groups == [] && w.engine.forced == []
    case Crash => true
  }

  function AfterPoll(src: Source, entries: seq<Entry>, maxBytes: nat, saved: bool): Source {
    var t' := ReadNewLines(src.t, entries, maxBytes, saved).0;
    var floor' := StartsAfter(src.floor, src.t.files, t'.files, src.disk, src.t.bootstrap);
    src.(t := t', floor := floor', mark := if src.t.bootstrap && maxBytes > 0 && saved then floor' else src.mark,
         origin := if src.origin.None? && src.t.bootstrap && maxBytes > 0 then Some(SafeOffsets(t'.files))
                   else src.origin)
  }

  function AfterCommit(src: Source, saved: bool): Source {
    if saved then src.(t := Committed(src.t), mark := src.floor) else src
  }

  /** The next process tracks the files its checkpoint names, from the points where their tracking had started. */
  function Restarted(src: Source): Source { src.(t := Start(src.t.checkpoint, true), floor := src.mark) }

  function RestartAll(sources: seq<Source>): (r: seq<Source>)
    ensures |r| == |sources| && forall i :: 0 <= i < |sources| ==> r[i] == Restarted(sources[i])
  {
    seq(|sources|, i requires 0 <= i < |sources| => Restarted(sources[i]))
  }

  /** The next world. The history of a read is any sound bookkeeping of the records that were accepted by it. */
  ghost predicate Next(sorter: seq<Candidate> -> seq<Candidate>, w: World, step: Step, w': World) {
    match step
    case Grow(i, path, text) =>
      && i < |w.sources|
      && w' == w.(sources := w.sources[i := w.sources[i].(disk := GrowFile(w.sources[i].disk, path, text))])
    case Read(i, entries, maxBytes, saved, wall) =>
      && i < |w.sources|
      && var lines := ReadNewLines(w.sources[i].t, entries, maxBytes, saved).1;
         && w'.sources == w.sources[i := AfterPoll(w.sources[i], entries, maxBytes, saved)]
         && w'.engine == IngestAll(sorter, w.engine, w.sources[i].endpoint, lines, wall)
         && w'.archive == w.archive
         && Inv(w'.engine, w'.h) && w'.h.emitted == w.h.emitted
         && w'.h.accepted == w.h.accepted + AcceptedOf(sorter, w.engine, w.sources[i].endpoint, lines, wall)
    case DrainAll(now, force) =>
      && w'.sources == w.sources && w'.engine == Drain(w.engine, now, force).0
      && w'.h == w.h.(emitted := w.h.emitted + Drain(w.engine, now, force).1)
      && |w'.h.home| == |w'.h.accepted| && w'.archive == w.archive + HandedOutIds(w'.h)
    case Commit(i, saved) =>
      i < |w.sources| && w' == w.(sources := w.sources[i := AfterCommit(w.sources[i], saved)])
    case Crash => w'.sources == RestartAll(w.sources) && w'.archive == w.archive && IsFresh(w'.engine) && IsBlank(w'.h)
  }
}
