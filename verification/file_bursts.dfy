/** When the log aggregator of FILEEE/file_logger.cpp counts a call into the pending
    record of its key, and when it starts a new one: bursts are as long as they can be. */
module FileBursts {
  import opened FileLog

  // ---------------------------------------------------------------- one call, in numbers

  /** The keys seen within the last two seconds. */
  function Fresh(s: State, now: int): (r: set<string>)
    ensures forall k :: k in r <==> k in s.pending && now - s.pending[k].lastSeen <= 2000
  {
    set k <- s.pending | now - s.pending[k].lastSeen <= 2000
  }

  /** One record more for keys that left, none for the others. */
  ghost predicate WrittenFor(s: State, s': State, left: set<string>) {
    forall key: string ::
      LinesOf(s'.written, key)
      == LinesOf(s.written, key) + if key in left && key in s.pending then [LineOf(key, s.pending[key])] else []
  }

  /** At most one recent record gives way, only when there are 256 of them and the call's is not among them; it was seen
      longest ago. */
  predicate GivesWay(s: State, recent: set<string>, c: Call, gone: set<string>)
    requires recent <= s.pending.Keys
  {
    && gone <= recent && c.key !in gone
    && |gone| == (if c.key !in recent && |recent| >= 256 then 1 else 0)
    && forall g <- gone, k <- recent :: s.pending[g].lastSeen <= s.pending[k].lastSeen
  }

  /** What is pending after a call. */
  predicate PendingAfter(s: State, s': State, recent: set<string>, c: Call, gone: set<string>)
    requires recent <= s.pending.Keys
  {
    && s'.pending.Keys == recent - gone + {c.key}
    && (forall k <- recent - gone - {c.key} :: s'.pending[k] == s.pending[k])
    && s'.pending[c.key] == if c.key in recent
                            then s.pending[c.key].(count := s.pending[c.key].count + 1, lastSeen := c.time)
                            else Pending(c.json, c.severity, 1, c.time)
  }

  ghost predicate CallStep(s: State, s': State, c: Call) {
    var recent := Fresh(s, c.time);
    exists gone :: GivesWay(s, recent, c, gone) && PendingAfter(s, s', recent, c, gone)
                   && WrittenFor(s, s', s.pending.Keys - recent + gone)
  }

  // ---------------------------------------------------------------- the flush of what has expired

  lemma {:induction false} FlushKeepsFresh(s: State, order: seq<string>, k: nat, now: int, key: string)
    requires key in s.pending && now - s.pending[key].lastSeen <= 2000
    ensures key in FlushFrom(s, order, k, now, false).pending
    decreases |order| - k
  {
    if k < |order| {
      if order[k] in s.pending && Late(s.pending[order[k]], now) {
        FlushKeepsFresh(Written(s, order[k]), order, k + 1, now, key);
      } else {
        FlushKeepsFresh(s, order, k + 1, now, key);
      }
    }
  }

  lemma {:induction false} FlushSameLines(s: State, order: seq<string>, k: nat, now: int, all: bool, key: string)
    ensures AllLines(FlushFrom(s, order, k, now, all), key) == AllLines(s, key)
    decreases |order| - k
  {
    hide AllLines, Late;
    if k < |order| {
      if order[k] in s.pending && (all || Late(s.pending[order[k]], now)) {
        WrittenSameLines(s, order[k], key);
        FlushSameLines(Written(s, order[k]), order, k + 1, now, all, key);
      } else {
        FlushSameLines(s, order, k + 1, now, all, key);
      }
    }
  }

  /** Exactly the records not seen for more than two seconds are written and leave. */
  lemma FlushExactly(s: State, order: seq<string>, now: int)
    requires Enumerates(order, s.pending.Keys)
    ensures var s1, recent := FlushFrom(s, order, 0, now, false), Fresh(s, now);
            && s1.pending.Keys == recent && (forall k <- recent :: s1.pending[k] == s.pending[k])
            && WrittenFor(s, s1, s.pending.Keys - recent)
  {
    hide FlushFrom, AllLines;
    var s1, recent := FlushFrom(s, order, 0, now, false), Fresh(s, now);
    FlushLeaves(s, order, 0, now, false);
    forall k ensures k in s1.pending <==> k in recent {
      if k in recent { FlushKeepsFresh(s, order, 0, now, k); }
      if k in s1.pending {
        assert k in order;
        var i :| 0 <= i < |order| && order[i] == k;
      }
    }
    forall key: string
      ensures LinesOf(s1.written, key)
           == LinesOf(s.written, key)
              + if key in s.pending.Keys - recent && key in s.pending then [LineOf(key, s.pending[key])] else []
    {
      FlushSameLines(s, order, 0, now, false, key);
      LeftIsWritten(s, s1, key);
    }
  }

  lemma LeftIsWritten(s: State, s1: State, key: string)
    requires AllLines(s1, key) == AllLines(s, key)
    requires key in s1.pending ==> key in s.pending && s1.pending[key] == s.pending[key]
    ensures LinesOf(s1.written, key)
         == LinesOf(s.written, key)
            + if key in s.pending && key !in s1.pending then [LineOf(key, s.pending[key])] else []
  {
    hide LinesOf, LineOf;
    var a, b := LinesOf(s1.written, key), LinesOf(s.written, key);
    if key in s1.pending {
      var l := LineOf(key, s.pending[key]);
      assert a == (a + [l])[..|a + [l]| - 1] && b == (b + [l])[..|b + [l]| - 1];
    } else {
      assert a + [] == a && b + [] == b;
    }
  }

  // ---------------------------------------------------------------- the call itself

  lemma PutAfter(s: State, s1: State, c: Call, recent: set<string>)
    requires recent == Fresh(s, c.time) && s1.pending.Keys == recent
             && forall k <- recent :: s1.pending[k] == s.pending[k]
    requires WrittenFor(s, s1, s.pending.Keys - recent) && c.key !in recent && |recent| < 256
    ensures CallStep(s, Put(s1, c), c)
  {
    hide WrittenFor;
    var gone: set<string> := {};
    assert GivesWay(s, recent, c, gone);
    assert PendingAfter(s, Put(s1, c), recent, c, gone);
    assert s.pending.Keys - recent + gone == s.pending.Keys - recent;
    SameWritten(s, s1, Put(s1, c), s.pending.Keys - recent);
  }

  lemma SameWritten(s: State, s1: State, s2: State, left: set<string>)
    requires WrittenFor(s, s1, left) && s2.written == s1.written
    ensures WrittenFor(s, s2, left)
  {
  }

  lemma CountAfter(s: State, s1: State, c: Call, recent: set<string>)
    requires recent == Fresh(s, c.time) && s1.pending.Keys == recent
             && forall k <- recent :: s1.pending[k] == s.pending[k]
    requires WrittenFor(s, s1, s.pending.Keys - recent) && c.key in recent
    ensures var p := s1.pending[c.key];
            CallStep(s, s1.(pending := s1.pending[c.key := p.(count := p.count + 1, lastSeen := c.time)]), c)
  {
    hide WrittenFor;
    var p, gone: set<string> := s1.pending[c.key], {};
    var s2 := s1.(pending := s1.pending[c.key := p.(count := p.count + 1, lastSeen := c.time)]);
    assert GivesWay(s, recent, c, gone);
    assert PendingAfter(s, s2, recent, c, gone);
    assert s.pending.Keys - recent + gone == s.pending.Keys - recent;
    SameWritten(s, s1, s2, s.pending.Keys - recent);
  }

  lemma OneMoreWritten(s: State, s1: State, left: set<string>, key: string)
    requires WrittenFor(s, s1, left) && key !in left && key in s1.pending && key in s.pending
    requires s1.pending[key] == s.pending[key]
    ensures WrittenFor(s, Written(s1, key), left + {key})
  {
    hide LinesOf;
    var s2 := Written(s1, key);
    forall other: string
      ensures LinesOf(s2.written, other)
           == LinesOf(s.written, other)
              + if other in left + {key} && other in s.pending then [LineOf(other, s.pending[other])] else []
    {
      LinesOfSnoc(s1.written, LineOf(key, s1.pending[key]), other);
    }
  }

  lemma EvictAfter(s: State, s1: State, c: Call, recent: set<string>, eldest: string)
    requires recent == Fresh(s, c.time) && s1.pending.Keys == recent
             && forall k <- recent :: s1.pending[k] == s.pending[k]
    requires WrittenFor(s, s1, s.pending.Keys - recent) && c.key !in recent && |recent| >= 256
    requires eldest in recent && forall k <- recent :: s1.pending[eldest].lastSeen <= s1.pending[k].lastSeen
    ensures CallStep(s, Put(Written(s1, eldest), c), c)
  {
    hide WrittenFor;
    var gone := {eldest};
    var s2 := Put(Written(s1, eldest), c);
    assert GivesWay(s, recent, c, gone);
    assert PendingAfter(s, s2, recent, c, gone);
    OneMoreWritten(s, s1, s.pending.Keys - recent, eldest);
    SameWritten(s, Written(s1, eldest), s2, s.pending.Keys - recent + gone);
  }

  /** Every call that is aggregated changes the pending records and the lines in this way. */
  lemma CallExactly(s: State, c: Call, order: seq<string>, order': seq<string>)
    requires Enumerates(order, s.pending.Keys)
    requires Enumerates(order', FlushFrom(s, order, 0, c.time, false).pending.Keys)
    ensures CallStep(s, Aggregated(s, c, order, order'), c)
  {
    hide FlushFrom, Oldest, WrittenFor, CallStep;
    var s1, recent := FlushFrom(s, order, 0, c.time, false), Fresh(s, c.time);
    FlushExactly(s, order, c.time);
    SomeKey(s1, order');
    assert |s1.pending| == |s1.pending.Keys| == |recent|;
    if c.key in recent {
      CountAfter(s, s1, c, recent);
    } else if |recent| >= 256 {
      var eldest := Oldest(s1, order', 0, order'[0]);
      OldestIsOldest(s1, order', 0, order'[0]);
      OldestOfAll(s1, order', eldest);
      EvictAfter(s, s1, c, recent, eldest);
    } else {
      PutAfter(s, s1, c, recent);
    }
  }

  lemma OldestOfAll(s: State, order: seq<string>, eldest: string)
    requires Enumerates(order, s.pending.Keys) && eldest in s.pending
    requires forall i :: 0 <= i < |order| ==>
             order[i] in s.pending && s.pending[eldest].lastSeen <= s.pending[order[i]].lastSeen
    ensures forall k <- s.pending :: s.pending[eldest].lastSeen <= s.pending[k].lastSeen
  {
    forall k | k in s.pending ensures s.pending[eldest].lastSeen <= s.pending[k].lastSeen {
      assert k in order;
      var i :| 0 <= i < |order| && order[i] == k;
    }
  }

  // ---------------------------------------------------------------- over a run

  predicate CallFor(e: Event, key: string) { Aggregates(e) && e.call.key == key }

  /** Event j is the next call with the key of event i. */
  predicate NextCall(events: seq<Event>, i: nat, j: nat) {
    && i < j < |events| && Aggregates(events[i]) && CallFor(events[j], events[i].call.key)
    && forall n :: i < n < j ==> !CallFor(events[n], events[i].call.key)
  }

  /** A flush, or a call more than two seconds after the given time. */
  predicate Ends(e: Event, time: int) { e.Flushed? || (Aggregates(e) && e.call.time - time > 2000) }

  /** The logger was flushed since event i, or called more than two seconds after it, with whatever key. */
  predicate Interrupted(events: seq<Event>, i: nat, m: nat)
    requires i < m <= |events| && Aggregates(events[i])
  {
    exists n :: i < n < m && Ends(events[n], events[i].call.time)
  }

  /** A record of another key is needed, and 256 keys have been seen within two seconds. */
  predicate Crowded(s: State, e: Event) { Aggregates(e) && |Fresh(s, e.call.time)| >= 256 }

  lemma EventExactly(states: seq<State>, events: seq<Event>, n: nat)
    requires IsRun(states, events) && n < |events|
    ensures |states| == |events| + 1
    ensures Aggregates(events[n]) ==> CallStep(states[n], states[n + 1], events[n].call)
    ensures events[n].Called? && !Aggregates(events[n]) ==> states[n + 1] == states[n]
    ensures events[n].Flushed? ==> states[n + 1].pending == map[]
  {
    hide FlushFrom, Enumerates, CallStep, Aggregated;
    var e := events[n];
    assert Iterates(states[n], e) && states[n + 1] == Step(states[n], e);
    if Aggregates(e) {
      CallExactly(states[n], e.call, e.order, e.order');
    } else if e.Flushed? {
      FlushAllEmpties(states[n], e.order, e.now);
    }
  }

  /** A call with its key leaves a record that was seen at its time. */
  lemma CalledIsPending(s: State, s': State, c: Call)
    requires CallStep(s, s', c)
    ensures c.key in s'.pending && s'.pending[c.key].lastSeen == c.time
  {
    hide WrittenFor;
  }

  lemma OtherCall(s: State, s': State, c: Call, key: string)
    requires CallStep(s, s', c) && key != c.key
    ensures key in s'.pending ==> key in s.pending && s'.pending[key] == s.pending[key]
    ensures key in s.pending && c.time - s.pending[key].lastSeen > 2000 ==> key !in s'.pending
    ensures key in s.pending && c.time - s.pending[key].lastSeen <= 2000 && |Fresh(s, c.time)| < 256 ==>
            key in s'.pending
  {
    hide WrittenFor, Fresh, GivesWay, PendingAfter;
    var recent := Fresh(s, c.time);
    var gone :| GivesWay(s, recent, c, gone) && PendingAfter(s, s', recent, c, gone)
                && WrittenFor(s, s', s.pending.Keys - recent + gone);
    OtherWith(s, s', c, key, gone);
  }

  lemma OtherWith(s: State, s': State, c: Call, key: string, gone: set<string>)
    requires key != c.key && var r := Fresh(s, c.time); GivesWay(s, r, c, gone) && PendingAfter(s, s', r, c, gone)
    ensures key in s'.pending ==> key in s.pending && s'.pending[key] == s.pending[key]
    ensures key in s.pending && c.time - s.pending[key].lastSeen > 2000 ==> key !in s'.pending
    ensures key in s.pending && c.time - s.pending[key].lastSeen <= 2000 && |Fresh(s, c.time)| < 256 ==>
            key in s'.pending
  {
    var recent := Fresh(s, c.time);
    assert |recent| < 256 ==> gone == {};
    assert key in s'.pending <==> key in recent && key !in gone;
  }

  lemma OwnCall(s: State, s': State, c: Call)
    requires CallStep(s, s', c)
    ensures c.key in s'.pending
    ensures s'.pending[c.key] == if c.key in s.pending && c.time - s.pending[c.key].lastSeen <= 2000
                                 then s.pending[c.key].(count := s.pending[c.key].count + 1, lastSeen := c.time)
                                 else Pending(c.json, c.severity, 1, c.time)
  {
    hide WrittenFor;
  }

  /** Until the next call with its key a record is unchanged or gone; it is gone
      after an interruption, and there without one unless 256 keys crowded it out. */
  lemma {:induction false} UntilNext(states: seq<State>, events: seq<Event>, i: nat, m: nat)
    requires IsRun(states, events) && i < m <= |events| && Aggregates(events[i])
    requires forall n :: i < n < m ==> !CallFor(events[n], events[i].call.key)
    ensures |states| == |events| + 1
    ensures var key := events[i].call.key;
            && key in states[i + 1].pending && states[i + 1].pending[key].lastSeen == events[i].call.time
            && (key in states[m].pending ==> states[m].pending[key] == states[i + 1].pending[key])
            && (Interrupted(events, i, m) ==> key !in states[m].pending)
            && (!Interrupted(events, i, m) && (forall n :: i < n < m ==> !Crowded(states[n], events[n])) ==>
                  key in states[m].pending)
    decreases m
  {
    hide IsRun, CallStep;
    var key, time := events[i].call.key, events[i].call.time;
    EventExactly(states, events, i);
    CalledIsPending(states[i], states[i + 1], events[i].call);
    if m > i + 1 {
      var e := events[m - 1];
      UntilNext(states, events, i, m - 1);
      EventExactly(states, events, m - 1);
      if Aggregates(e) { OtherCall(states[m - 1], states[m], e.call, key); }
      assert Interrupted(events, i, m) <==> Interrupted(events, i, m - 1) || Ends(e, time);
    }
  }

  /** Bursts are maximal: the next call with a key is counted into its record unless
      the logger was flushed or called more than two seconds after the last one, or
      256 keys crowded the record out; and then it starts a record of its own. */
  lemma BurstsAreMaximal(states: seq<State>, events: seq<Event>, i: nat, j: nat)
    requires IsRun(states, events) && NextCall(events, i, j)
    ensures |states| == |events| + 1
    ensures var c, p := events[j].call, states[i + 1].pending; var p' := states[j + 1].pending;
            && c.key in p && c.key in p'
            && (Interrupted(events, i, j + 1) ==> p'[c.key] == Pending(c.json, c.severity, 1, c.time))
            && (!Interrupted(events, i, j + 1) && (forall n :: i < n < j ==> !Crowded(states[n], events[n])) ==>
                  p'[c.key] == p[c.key].(count := p[c.key].count + 1, lastSeen := c.time))
  {
    hide IsRun, CallStep;
    UntilNext(states, events, i, j);
    EventExactly(states, events, j);
    OwnCall(states[j], states[j + 1], events[j].call);
    assert Interrupted(events, i, j + 1) <==> Interrupted(events, i, j) || Ends(events[j], events[i].call.time);
  }
}
