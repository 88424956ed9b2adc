/** When a story leaves: quiet for three seconds or thirty seconds old, whichever comes first, over every run. */
module UnifiedDrain {
  import opened Text
  import opened Evidence
  import opened EvidenceExact
  import opened UnifiedSpec
  import opened UnifiedHistory
  import opened UnifiedPlaces
  import opened UnifiedInvariant
  import opened UnifiedTheorems
  import opened UnifiedRuns
  import opened UnifiedMatches

  // ---------------------------------------------------------------- one drain

  /** Nothing was added to the story for three seconds, or it was opened thirty seconds ago. */
  predicate Finished(g: Group, now: int) {
    g.lastActivity <= now - 3000 || g.createdWall <= now - 30000
  }

  /** A drain hands out first what was forced out before; then, in order of their ids, exactly the pending
      stories that are finished, or all of them when it is forced; and keeps exactly the others, in order. */
  lemma DrainedExactly(s: State, now: int, force: bool)
    requires Ascending(s.groups)
    ensures var r := Drain(s, now, force);
            && r.0.forced == [] && |s.forced| <= |r.1| && r.1[..|s.forced|] == s.forced
            && (forall g :: g in r.1[|s.forced|..] <==> g in s.groups && (force || Finished(g, now)))
            && (forall g :: g in r.0.groups <==> g in s.groups && !force && !Finished(g, now))
            && Ascending(r.1[|s.forced|..]) && Ascending(r.0.groups)
  {
    hide DueOf, KeptOf, CountAll, Ascending;
    Partitioned(s.groups, now, force);
    var due := DueOf(s.groups, now, force);
    assert (s.forced + due)[|s.forced|..] == due && (s.forced + due)[..|s.forced|] == s.forced;
  }

  // ---------------------------------------------------------------- what a line changes

  /** The story opened now, or has been there under its id since it opened; either way something was added to it now. */
  predicate Touched(s: State, s': State, g: Group, wall: int) {
    && g.lastActivity == wall
    && (|| (g.id == s.nextId && s'.nextId == s.nextId + 1 && g.createdWall == wall)
        || exists x <- s.groups :: x.id == g.id && x.createdWall == g.createdWall)
  }

  /** One line: every pending story was pending before, as it is, or was touched by it. */
  lemma LineTouches(sorter: seq<Candidate> -> seq<Candidate>, s: State, endpoint: string, line: string, wall: int)
    requires IsSorter(sorter) && Ascending(s.groups) && forall g <- s.groups :: g.id != 0
    ensures var s' := Ingest(sorter, s, endpoint, line, wall).0;
            && (s'.nextId == s.nextId || s'.nextId == s.nextId + 1)
            && forall g <- s'.groups :: g in s.groups || Touched(s, s', g, wall)
  {
    hide Observe, LooksLikeObject, ExactIdentity, Place, IsSorter, OpensAlone, CountedInto, Outcome, TopStory,
         RepeatedIn, Relates, Repeated, Remember, Touched, Ascending;
    if Ingest(sorter, s, endpoint, line, wall).1 {
      LineIsPlaced(sorter, s, endpoint, line, wall);
      var a, s' := Observe(endpoint, line, wall), Ingest(sorter, s, endpoint, line, wall).0;
      ObservedNow(endpoint, line, wall);
      if OpensAlone(s, s', a) {
        AloneTouches(s, s', a);
      } else if exists i: nat, m: nat :: CountedInto(s, s', i, m, a) {
        var i: nat, m: nat :| CountedInto(s, s', i, m, a);
        CountedTouches(s, s', i, m, a);
      } else {
        var t :| TopStory(s.groups, t, a.record) && Outcome(s, s', t, a);
        OutcomeTouches(s, s', t, a);
      }
    }
  }

  lemma ObservedNow(endpoint: string, line: string, wall: int)
    ensures Observe(endpoint, line, wall).wall == wall
  {
  }

  lemma AloneTouches(s: State, s': State, a: Arrival)
    requires OpensAlone(s, s', a)
    ensures s'.nextId == s.nextId + 1 && forall g <- s'.groups :: g in s.groups || Touched(s, s', g, a.wall)
  {
    var kept, last := s'.groups[..|s'.groups| - 1], s'.groups[|s'.groups| - 1];
    assert s'.groups == kept + [last];
    assert Touched(s, s', last, a.wall);
    hide Touched;
    forall g <- s'.groups ensures g in s.groups || Touched(s, s', g, a.wall) {
      if g != last { assert g in kept; }
    }
  }

  lemma CountedTouches(s: State, s': State, i: nat, m: nat, a: Arrival)
    requires CountedInto(s, s', i, m, a)
    ensures s'.nextId == s.nextId && forall g <- s'.groups :: g in s.groups || Touched(s, s', g, a.wall)
  {
    assert s.groups[i] in s.groups;
    assert Touched(s, s', s'.groups[i], a.wall);
    hide Touched;
    forall g <- s'.groups ensures g in s.groups || Touched(s, s', g, a.wall) {
      var k :| 0 <= k < |s'.groups| && s'.groups[k] == g;
      if k != i { assert s.groups[k] == g; }
    }
  }

  lemma OutcomeTouches(s: State, s': State, t: Group, a: Arrival)
    requires Outcome(s, s', t, a) && TopStory(s.groups, t, a.record)
    ensures s'.nextId == s.nextId || s'.nextId == s.nextId + 1
    ensures forall g <- s'.groups :: g in s.groups || Touched(s, s', g, a.wall)
  {
    hide Relates, JoinedTo, BestMatch;
    assert t in s.groups;
    if s'.nextId == s.nextId {
      var x :| x in s'.groups && x.id == t.id && x.createdWall == t.createdWall && x.lastActivity == a.wall
               && forall y <- s'.groups :: y == x || y in s.groups;
      assert Touched(s, s', x, a.wall);
    } else {
      var kept, last := s'.groups[..|s'.groups| - 1], s'.groups[|s'.groups| - 1];
      assert s'.groups == kept + [last];
      assert Touched(s, s', last, a.wall);
      forall g <- s'.groups ensures g in s.groups || Touched(s, s', g, a.wall) {
        if g != last { assert g in kept; }
      }
    }
  }

  // ---------------------------------------------------------------- over runs

  lemma RunIsAscending(sorter: seq<Candidate> -> seq<Candidate>, events: seq<Event>)
    requires IsSorter(sorter)
    ensures var s := Run(sorter, events).0; Ascending(s.groups) && forall g <- s.groups :: 0 < g.id < s.nextId
  {
    hide Inv, Run, IsSorter;
    var h := EveryRunKeeps(sorter, events);
    CoreOf(Run(sorter, events).0, h);
  }

  lemma Prefix(events: seq<Event>, k: nat)
    requires k < |events|
    ensures events[..|events| - 1][..k] == events[..k]
  {
  }

  /** Every pending story was opened by a line of the run, the one that took its id, and counts its age from there. */
  lemma {:induction false} EveryStoryWasOpened(sorter: seq<Candidate> -> seq<Candidate>, events: seq<Event>, g: Group)
    returns (k: nat)
    requires IsSorter(sorter) && g in Run(sorter, events).0.groups
    ensures k < |events| && events[k].Line? && events[k].wall == g.createdWall
    ensures Run(sorter, events[..k]).0.nextId == g.id && Run(sorter, events[..k + 1]).0.nextId == g.id + 1
    decreases |events|
  {
    hide Ingest, IsSorter, Drain, Ascending;
    var front, last := events[..|events| - 1], events[|events| - 1];
    var s := Run(sorter, front).0;
    assert events[..|events|] == events;
    RunIsAscending(sorter, front);
    match last
    case Line(endpoint, line, wall) =>
      LineTouches(sorter, s, endpoint, line, wall);
      if g in s.groups {
        k := EveryStoryWasOpened(sorter, front, g);
        Prefix(events, k);
        Prefix(events, k + 1);
      } else if x :| x in s.groups && x.id == g.id && x.createdWall == g.createdWall {
        k := EveryStoryWasOpened(sorter, front, x);
        Prefix(events, k);
        Prefix(events, k + 1);
      } else {
        k := |events| - 1;
      }
    case Drained(now, force) =>
      DrainedExactly(s, now, force);
      k := EveryStoryWasOpened(sorter, front, g);
      Prefix(events, k);
      Prefix(events, k + 1);
  }

  /** The story has stood as it is since event k. */
  ghost predicate SinceThen(sorter: seq<Candidate> -> seq<Candidate>, events: seq<Event>, k: nat, g: Group) {
    forall m :: k < m <= |events| ==> g in Run(sorter, events[..m]).0.groups
  }

  /** Every pending story was last touched by a line of the run, the one after
      which it stands as it is, and counts its rest from there. */
  lemma {:induction false} EveryStoryWasTouched(sorter: seq<Candidate> -> seq<Candidate>, events: seq<Event>, g: Group)
    returns (k: nat)
    requires IsSorter(sorter) && g in Run(sorter, events).0.groups
    ensures k < |events| && events[k].Line? && events[k].wall == g.lastActivity
    ensures g !in Run(sorter, events[..k]).0.groups && SinceThen(sorter, events, k, g)
    decreases |events|
  {
    hide Ingest, IsSorter, Drain, Ascending, SinceThen;
    var front, last := events[..|events| - 1], events[|events| - 1];
    var s := Run(sorter, front).0;
    RunIsAscending(sorter, front);
    if last.Line? { LineTouches(sorter, s, last.endpoint, last.line, last.wall); }
    else { DrainedExactly(s, last.now, last.force); }
    if g in s.groups {
      k := EveryStoryWasTouched(sorter, front, g);
      StillSince(sorter, events, k, g);
      Prefix(events, k);
    } else {
      k := |events| - 1;
      JustNow(sorter, events, g);
    }
  }

  lemma StillSince(sorter: seq<Candidate> -> seq<Candidate>, events: seq<Event>, k: nat, g: Group)
    requires events != [] && g in Run(sorter, events).0.groups && SinceThen(sorter, events[..|events| - 1], k, g)
    ensures SinceThen(sorter, events, k, g)
  {
    hide Run;
    var front := events[..|events| - 1];
    assert events[..|events|] == events;
    forall m | k < m <= |events| ensures g in Run(sorter, events[..m]).0.groups {
      if m < |events| { Prefix(events, m); }
    }
  }

  lemma JustNow(sorter: seq<Candidate> -> seq<Candidate>, events: seq<Event>, g: Group)
    requires events != [] && g in Run(sorter, events).0.groups
    ensures SinceThen(sorter, events, |events| - 1, g)
  {
    hide Run;
    assert events[..|events|] == events;
  }

  /** After every drain, whatever the run before it was: a story that is still pending
      was touched by a line observed less than three seconds before the drain and
      opened by one observed less than thirty seconds before it, however busy it is. */
  lemma NothingPendsForLong(sorter: seq<Candidate> -> seq<Candidate>, events: seq<Event>, now: int, force: bool,
                            g: Group)
    returns (last: nat, first: nat)
    requires IsSorter(sorter) && g in Run(sorter, events + [Drained(now, force)]).0.groups
    ensures !force && last < |events| && first < |events| && events[last].Line? && events[first].Line?
    ensures now - events[last].wall < 3000 && now - events[first].wall < 30000
    ensures SinceThen(sorter, events, last, g)
    ensures Run(sorter, events[..first]).0.nextId == g.id && Run(sorter, events[..first + 1]).0.nextId == g.id + 1
  {
    hide IsSorter, Drain, Ascending, SinceThen, Ingest;
    var all := events + [Drained(now, force)];
    assert all[..|all| - 1] == events;
    RunIsAscending(sorter, events);
    DrainedExactly(Run(sorter, events).0, now, force);
    hide Run;
    last := EveryStoryWasTouched(sorter, events, g);
    first := EveryStoryWasOpened(sorter, events, g);
  }
}
