/** CORRELATOR/main.cpp in its own form: the poll loop over the tailer objects and the engine object,
    proved to be a run of the pipeline's steps. */
module Correlator {
  import opened Text
  import opened TailerSpec
  import opened TailerTheorems
  import opened LogTailing
  import opened UnifiedSpec
  import opened UnifiedHistory
  import opened UnifiedInvariant
  import opened UnifiedEngine
  import opened Pipeline
  import opened AtLeastOnce

  const READ_LIMIT: nat := 256 * 1024

  class Monitor {
    const names: seq<string>
    const tailers: seq<LogTailer>
    const engine: UnifiedStreamEngine
    /** Every group handed to the log. */
    var logged: seq<Group>
    var ingested: nat
    var checkpointFailures: nat
    ghost var disks: seq<Disk>
    ghost var floors: seq<map<string, nat>>
    ghost var marks: seq<map<string, nat>>
    ghost var origins: seq<Option<map<string, nat>>>
    ghost var archive: set<string>

    ghost predicate Shaped()
      reads this
    {
      |names| == |tailers| == |disks| == |floors| == |marks| == |origins|
    }

    ghost predicate Valid()
      reads this, tailers, engine
    {
      && Shaped()
      && (forall i, j :: 0 <= i < j < |tailers| ==> tailers[i] != tailers[j])
      && engine.Valid()
    }

    ghost function SourceAt(i: nat): Source
      requires Shaped() && i < |tailers|
      reads this, tailers
    {
      Source(names[i], disks[i], tailers[i].Contents(), floors[i], marks[i], origins[i])
    }

    ghost function Sources(n: nat): (r: seq<Source>)
      requires Shaped() && n <= |tailers|
      reads this, tailers
      ensures |r| == n && forall i :: 0 <= i < n ==> r[i] == SourceAt(i)
    {
      if n == 0 then [] else Sources(n - 1) + [SourceAt(n - 1)]
    }

    ghost function TheWorld(): World
      requires Shaped()
      reads this, tailers, engine
    {
      World(Sources(|tailers|), engine.Contents(), engine.history, archive)
    }

    /** The first start: no checkpoint, an empty engine, nothing logged. */
    constructor (names: seq<string>, tailers: seq<LogTailer>, engine: UnifiedStreamEngine, ghost disks: seq<Disk>)
      requires |names| == |tailers| == |disks|
      requires forall i, j :: 0 <= i < j < |tailers| ==> tailers[i] != tailers[j]
      requires forall i :: 0 <= i < |tailers| ==> tailers[i].Contents() == Start(None, true)
      requires IsFresh(engine.Contents()) && IsBlank(engine.history)
      requires engine.Valid()
      ensures Valid() && FirstStart(TheWorld()) && logged == []
      ensures this.names == names && this.tailers == tailers && this.engine == engine && this.disks == disks
    {
      hide UnifiedInvariant.Inv, IsSorter, FirstStart;
      this.names, this.tailers, this.engine := names, tailers, engine;
      logged, ingested, checkpointFailures := [], 0, 0;
      this.disks, floors, marks := disks, seq(|names|, i => map[]), seq(|names|, i => map[]);
      origins, archive := seq(|names|, i => None), {};
      new;
      StartsFirst();
    }

    lemma StartsFirst()
      requires Shaped() && IsFresh(engine.Contents()) && IsBlank(engine.history) && archive == {}
      requires forall i :: 0 <= i < |tailers| ==> tailers[i].Contents() == Start(None, true) && origins[i] == None
      ensures FirstStart(TheWorld())
    {
      var sources := Sources(|tailers|);
      forall src <- sources ensures src.t == Start(None, true) && src.origin == None {
        var i :| 0 <= i < |sources| && sources[i] == src;
      }
    }

    /** The tailer's part of reading one source. */
    method PollTailer(i: nat, entries: seq<Entry>, saved: bool) returns (lines: seq<string>)
      requires Valid() && i < |tailers|
      modifies this`floors, this`marks, this`origins, tailers[i]
      ensures Shaped()
      ensures Sources(|tailers|)
           == old(Sources(|tailers|))[i := AfterPoll(old(SourceAt(i)), entries, READ_LIMIT, saved)]
      ensures lines == ReadNewLines(old(tailers[i].Contents()), entries, READ_LIMIT, saved).1
      ensures forall j :: 0 <= j < |tailers| && j != i ==> tailers[j].Contents() == old(tailers[j].Contents())
    {
      hide UnifiedInvariant.Inv, TailerSpec.ReadNewLines, StartsAfter, SafeOffsets;
      ghost var src' := AfterPoll(SourceAt(i), entries, READ_LIMIT, saved);
      lines := tailers[i].ReadNewLines(entries, READ_LIMIT, saved);
      floors, marks, origins := floors[i := src'.floor], marks[i := src'.mark], origins[i := src'.origin];
    }

    /** Reading one source and feeding its lines to the engine, one by one. */
    method ReadSource(i: nat, entries: seq<Entry>, saved: bool, observed: int, clock: int)
      requires Valid() && i < |tailers| && ListsSome(entries, disks[i])
      modifies this`ingested, this`floors, this`marks, this`origins, tailers[i], engine
      ensures Valid()
      ensures var wall := if observed <= 0 then clock else observed;
              && Enabled(old(TheWorld()), Read(i, entries, READ_LIMIT, saved, wall))
              && Next(engine.sorter, old(TheWorld()), Read(i, entries, READ_LIMIT, saved, wall), TheWorld())
      ensures forall j :: 0 <= j < |tailers| && j != i ==> tailers[j].Contents() == old(tailers[j].Contents())
    {
      hide UnifiedInvariant.Inv, UnifiedSpec.Ingest, TailerSpec.ReadNewLines, IsSorter, ListsSome, UnifiedSpec.Observe,
           Next, Enabled, AfterPoll;
      ghost var before := TheWorld();
      var lines := PollTailer(i, entries, saved);
      ghost var polled := Sources(|tailers|);
      FeedLines(names[i], lines, observed, clock);
      assert Sources(|tailers|) == polled;
      ReadIsNext(engine.sorter, before, i, entries, saved, if observed <= 0 then clock else observed, TheWorld());
    }

    /** The inner loop: every line is handed to the engine. */
    method FeedLines(name: string, lines: seq<string>, observed: int, clock: int)
      requires engine.Valid()
      modifies this`ingested, engine
      ensures engine.Valid() && engine.history.emitted == old(engine.history.emitted)
      ensures var wall := if observed <= 0 then clock else observed;
              && engine.Contents() == IngestAll(engine.sorter, old(engine.Contents()), name, lines, wall)
              && engine.history.accepted
                 == old(engine.history.accepted) + AcceptedOf(engine.sorter, old(engine.Contents()), name, lines, wall)
    {
      hide UnifiedInvariant.Inv, UnifiedSpec.Ingest, IsSorter, UnifiedSpec.Observe;
      ghost var wall := if observed <= 0 then clock else observed;
      ghost var s, h := engine.Contents(), engine.history;
      var k := 0;
      while k < |lines|
        modifies engine, this`ingested
        invariant 0 <= k <= |lines|
        invariant engine.Valid() && engine.history.emitted == h.emitted
        invariant engine.Contents() == IngestAll(engine.sorter, s, name, lines[..k], wall)
        invariant engine.history.accepted == h.accepted + AcceptedOf(engine.sorter, s, name, lines[..k], wall)
      {
        assert lines[..k + 1][..k] == lines[..k];
        var _ := engine.Ingest(name, lines[k], observed, clock);
        ingested := ingested + 1;
        k := k + 1;
      }
      assert lines[..k] == lines;
    }

    /** The polling loop over all sources: one read step each, in order. */
    method ReadAll(listings: seq<seq<Entry>>, saves: seq<bool>, observed: int, clock: int)
      returns (ghost ws: seq<World>, ghost steps: seq<Step>)
      requires Valid() && |listings| == |saves| == |tailers|
      requires forall i :: 0 <= i < |tailers| ==> ListsSome(listings[i], disks[i])
      modifies this`ingested, this`floors, this`marks, this`origins, tailers, engine
      ensures Valid() && IsRun(engine.sorter, ws, steps) && ws[0] == old(TheWorld()) && ws[|steps|] == TheWorld()
      ensures var wall := if observed <= 0 then clock else observed;
              |steps| == |tailers| && forall i :: 0 <= i < |steps| ==>
                steps[i] == Read(i, listings[i], READ_LIMIT, saves[i], wall)
    {
      hide Next, Enabled, UnifiedInvariant.Inv, IsSorter, ListsSome;
      ghost var wall := if observed <= 0 then clock else observed;
      ws, steps := [TheWorld()], [];
      var i := 0;
      while i < |tailers|
        invariant 0 <= i <= |tailers| && Valid()
        invariant IsRun(engine.sorter, ws, steps) && ws[0] == old(TheWorld()) && ws[|steps|] == TheWorld()
        invariant |steps| == i && forall j :: 0 <= j < i ==>
                  steps[j] == Read(j, listings[j], READ_LIMIT, saves[j], wall)
      {
        ReadSource(i, listings[i], saves[i], observed, clock);
        ExtendRun(engine.sorter, ws, steps, Read(i, listings[i], READ_LIMIT, saves[i], wall), TheWorld());
        ws, steps := ws + [TheWorld()], steps + [Read(i, listings[i], READ_LIMIT, saves[i], wall)];
        i := i + 1;
      }
    }

    /** Draining the engine into the log. */
    method DrainToLog(now: int, force: bool, clock: int)
      requires Valid()
      modifies this`logged, this`archive, engine
      ensures Valid()
      ensures var at := if now <= 0 then clock else now;
              Next(engine.sorter, old(TheWorld()), DrainAll(at, force), TheWorld())
      ensures old(logged) <= logged && engine.history.emitted == old(engine.history.emitted) + logged[|old(logged)|..]
      ensures engine.forcedReady == [] && (force ==> engine.groups == [])
    {
      hide UnifiedInvariant.Inv, IsSorter, Drain, HandedOutIds, Due, Next;
      ghost var before := TheWorld();
      var output := engine.DrainReady(now, force, clock);
      logged := logged + output;
      HomesCount(engine.Contents(), engine.history);
      archive := archive + HandedOutIds(engine.history);
      assert Sources(|tailers|) == before.sources;
      DrainIsNext(engine.sorter, before, if now <= 0 then clock else now, force, TheWorld());
    }

    /** Committing every tailer, in order; called only when the engine holds nothing back. */
    method CommitAll(saves: seq<bool>) returns (ghost ws: seq<World>, ghost steps: seq<Step>)
      requires Valid() && |saves| == |tailers| && engine.groups == [] && engine.forcedReady == []
      modifies this`checkpointFailures, this`marks, tailers
      ensures Valid() && IsRun(engine.sorter, ws, steps) && ws[0] == old(TheWorld()) && ws[|steps|] == TheWorld()
      ensures |steps| == |tailers| && forall i :: 0 <= i < |steps| ==> steps[i] == Commit(i, saves[i])
    {
      hide UnifiedInvariant.Inv, IsSorter, Next, Enabled, Committed;
      ws, steps := [TheWorld()], [];
      var i := 0;
      while i < |tailers|
        invariant 0 <= i <= |tailers| && Valid()
        invariant IsRun(engine.sorter, ws, steps) && ws[0] == old(TheWorld()) && ws[|steps|] == TheWorld()
        invariant |steps| == i && forall j :: 0 <= j < i ==> steps[j] == Commit(j, saves[j])
      {
        CommitOne(i, saves[i]);
        ExtendRun(engine.sorter, ws, steps, Commit(i, saves[i]), TheWorld());
        ws, steps := ws + [TheWorld()], steps + [Commit(i, saves[i])];
        i := i + 1;
      }
    }

    method CommitOne(i: nat, saved: bool)
      requires Valid() && i < |tailers| && engine.groups == [] && engine.forcedReady == []
      modifies this`checkpointFailures, this`marks, tailers[i]
      ensures Valid()
      ensures Enabled(old(TheWorld()), Commit(i, saved))
      ensures Next(engine.sorter, old(TheWorld()), Commit(i, saved), TheWorld())
    {
      hide UnifiedInvariant.Inv, IsSorter, Committed, Next, Enabled;
      ghost var before, src := TheWorld(), SourceAt(i);
      tailers[i].Commit(saved);
      if saved { marks := marks[i := floors[i]]; } else { checkpointFailures := checkpointFailures + 1; }
      assert Sources(|tailers|) == before.sources[i := AfterCommit(src, saved)];
      CommitIsNext(engine.sorter, before, i, saved, TheWorld());
    }

    /** One turn of the main loop: read everything, drain what is due into the log, and advance the durable read
        positions only if no accepted record is still pending. */
    method PollCycle(listings: seq<seq<Entry>>, bootSaves: seq<bool>, saves: seq<bool>, observed: int)
      returns (ghost ws: seq<World>, ghost steps: seq<Step>)
      requires Valid() && |listings| == |bootSaves| == |saves| == |tailers| && observed > 0
      requires forall i :: 0 <= i < |tailers| ==> ListsSome(listings[i], disks[i])
      modifies this, tailers, engine
      ensures Valid() && IsRun(engine.sorter, ws, steps) && ws[0] == old(TheWorld()) && ws[|steps|] == TheWorld()
      ensures |steps| >= |tailers| + 1 && steps[|tailers|] == DrainAll(observed, false)
      ensures forall i :: 0 <= i < |tailers| ==> steps[i] == Read(i, listings[i], READ_LIMIT, bootSaves[i], observed)
      ensures |steps| == (if engine.groups == [] then 2 * |tailers| + 1 else |tailers| + 1)
      ensures forall i :: |tailers| < i < |steps| ==> steps[i].Commit?
    {
      hide UnifiedInvariant.Inv, IsSorter, Next, ListsSome;
      ws, steps := ReadAll(listings, bootSaves, observed, observed);
      DrainToLog(observed, false, observed);
      ExtendRun(engine.sorter, ws, steps, DrainAll(observed, false), TheWorld());
      ws, steps := ws + [TheWorld()], steps + [DrainAll(observed, false)];
      if engine.groups == [] {
        ghost var ws', steps' := CommitAll(saves);
        JoinRuns(engine.sorter, ws, steps, ws', steps');
        ws, steps := ws + ws'[1..], steps + steps';
      }
    }

    /** Clean shutdown: everything is drained, so every read position may be committed. */
    method Shutdown(saves: seq<bool>, clock: int) returns (ghost ws: seq<World>, ghost steps: seq<Step>)
      requires Valid() && |saves| == |tailers|
      modifies this, tailers, engine
      ensures Valid() && IsRun(engine.sorter, ws, steps) && ws[0] == old(TheWorld()) && ws[|steps|] == TheWorld()
      ensures |steps| == |tailers| + 1 && steps[0] == DrainAll(clock, true)
      ensures forall i :: 0 < i < |steps| ==> steps[i] == Commit(i - 1, saves[i - 1])
      ensures engine.groups == [] && engine.forcedReady == []
    {
      hide UnifiedInvariant.Inv, IsSorter, Next;
      ws, steps := [TheWorld()], [];
      DrainToLog(0, true, clock);
      ExtendRun(engine.sorter, ws, steps, DrainAll(clock, true), TheWorld());
      ws, steps := ws + [TheWorld()], steps + [DrainAll(clock, true)];
      ghost var ws', steps' := CommitAll(saves);
      JoinRuns(engine.sorter, ws, steps, ws', steps');
      ws, steps := ws + ws'[1..], steps + steps';
    }
  }

  lemma ReadIsNext(sorter: seq<Candidate> -> seq<Candidate>, w: World, i: nat, entries: seq<Entry>, saved: bool,
                   wall: int, w': World)
    requires i < |w.sources| && ListsSome(entries, w.sources[i].disk)
    requires var lines := ReadNewLines(w.sources[i].t, entries, READ_LIMIT, saved).1;
             && w'.sources == w.sources[i := AfterPoll(w.sources[i], entries, READ_LIMIT, saved)]
             && w'.engine == IngestAll(sorter, w.engine, w.sources[i].endpoint, lines, wall)
             && w'.archive == w.archive && Inv(w'.engine, w'.h) && w'.h.emitted == w.h.emitted
             && w'.h.accepted == w.h.accepted + AcceptedOf(sorter, w.engine, w.sources[i].endpoint, lines, wall)
    ensures Enabled(w, Read(i, entries, READ_LIMIT, saved, wall))
            && Next(sorter, w, Read(i, entries, READ_LIMIT, saved, wall), w')
  {
    hide Inv, ReadNewLines, AfterPoll, ListsSome, IngestAll, AcceptedOf;
  }

  lemma CommitIsNext(sorter: seq<Candidate> -> seq<Candidate>, w: World, i: nat, saved: bool, w': World)
    requires i < |w.sources| && w.engine.groups == [] && w.engine.forced == []
    requires w' == w.(sources := w.sources[i := AfterCommit(w.sources[i], saved)])
    ensures Enabled(w, Commit(i, saved)) && Next(sorter, w, Commit(i, saved), w')
  {
  }

  lemma DrainIsNext(sorter: seq<Candidate> -> seq<Candidate>, w: World, now: int, force: bool, w': World)
    requires w'.sources == w.sources && w'.engine == Drain(w.engine, now, force).0
    requires w'.h == w.h.(emitted := w.h.emitted + Drain(w.engine, now, force).1)
    requires |w'.h.home| == |w'.h.accepted| && w'.archive == w.archive + HandedOutIds(w'.h)
    ensures Next(sorter, w, DrainAll(now, force), w')
  {
    hide Drain, HandedOutIds;
  }

  lemma ExtendRun(sorter: seq<Candidate> -> seq<Candidate>, ws: seq<World>, steps: seq<Step>, step: Step, w: World)
    requires IsRun(sorter, ws, steps) && Enabled(ws[|steps|], step) && Next(sorter, ws[|steps|], step, w)
    ensures IsRun(sorter, ws + [w], steps + [step])
  {
    hide Next, Enabled;
    var ws', steps' := ws + [w], steps + [step];
    forall k | 0 <= k < |steps'| ensures Enabled(ws'[k], steps'[k]) && Next(sorter, ws'[k], steps'[k], ws'[k + 1]) {
      if k < |steps| {
        assert ws'[k] == ws[k] && steps'[k] == steps[k] && ws'[k + 1] == ws[k + 1];
      }
    }
  }

  lemma JoinRuns(sorter: seq<Candidate> -> seq<Candidate>, ws: seq<World>, steps: seq<Step>, ws': seq<World>,
                 steps': seq<Step>)
    requires IsRun(sorter, ws, steps) && IsRun(sorter, ws', steps') && ws'[0] == ws[|steps|]
    ensures IsRun(sorter, ws + ws'[1..], steps + steps')
    ensures (ws + ws'[1..])[|steps + steps'|] == ws'[|steps'|]
  {
    hide Next, Enabled;
    var all, allSteps := ws + ws'[1..], steps + steps';
    forall k | 0 <= k < |allSteps|
      ensures Enabled(all[k], allSteps[k]) && Next(sorter, all[k], allSteps[k], all[k + 1]) {
      if k < |steps| {
        assert all[k] == ws[k] && all[k + 1] == ws[k + 1];
      } else {
        var j := k - |steps|;
        assert allSteps[k] == steps'[j] && all[k] == ws'[j] && all[k + 1] == ws'[j + 1];
      }
    }
  }
}
