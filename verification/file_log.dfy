/** The log aggregator of FILEEE/file_logger.cpp: `LogAggregated`, `FlushExpiredAggregatesUnlocked` and `Flush`. */
module FileLog {

  const MAX_PENDING: nat := 256
  const WINDOW_MS: int := 2000

  datatype Severity = Info | Warning | Alert

  datatype Pending = Pending(json: string, severity: Severity, count: nat, lastSeen: int)

  /** One call of the writer; `key` is the aggregation key it was made for. */
  datatype Line = Line(key: string, json: string, severity: Severity, count: nat)

  datatype State = State(pending: map<string, Pending>, written: seq<Line>)

  function LineOf(key: string, p: Pending): Line { Line(key, p.json, p.severity, p.count) }

  // ---------------------------------------------------------------- the steps

  function Written(s: State, key: string): State
    requires key in s.pending
  {
    State(s.pending - {key}, s.written + [LineOf(key, s.pending[key])])
  }

  predicate Late(p: Pending, now: int) { now - p.lastSeen > WINDOW_MS }

  /** `FlushExpiredAggregatesUnlocked`; `order` is the iteration order of the hash map, from position `k` on. */
  function FlushFrom(s: State, order: seq<string>, k: nat, now: int, all: bool): State
    decreases |order| - k
  {
    if k >= |order| then s
    else if order[k] in s.pending && (all || Late(s.pending[order[k]], now)) then
      FlushFrom(Written(s, order[k]), order, k + 1, now, all)
    else FlushFrom(s, order, k + 1, now, all)
  }

  /** The key at position `k` or later, or `best`, that was seen longest ago. */
  function Oldest(s: State, order: seq<string>, k: nat, best: string): (r: string)
    requires best in s.pending && forall i :: 0 <= i < |order| ==> order[i] in s.pending
    ensures r in s.pending
    decreases |order| - k
  {
    if k >= |order| then best
    else if s.pending[order[k]].lastSeen < s.pending[best].lastSeen then Oldest(s, order, k + 1, order[k])
    else Oldest(s, order, k + 1, best)
  }

  ghost predicate Enumerates(order: seq<string>, keys: set<string>) {
    && (forall i, j :: 0 <= i < j < |order| ==> order[i] != order[j])
    && forall k :: k in order <==> k in keys
  }

  datatype Call = Call(key: string, json: string, severity: Severity, time: int)

  /** The step after the expired records are flushed. */
  function Joined(s: State, c: Call, order: seq<string>): State
    requires Enumerates(order, s.pending.Keys)
  {
    if c.key in s.pending && !Late(s.pending[c.key], c.time) then
      var p := s.pending[c.key];
      s.(pending := s.pending[c.key := p.(count := p.count + 1, lastSeen := c.time)])
    else if c.key in s.pending then
      Put(Written(s, c.key), c)
    else if |s.pending| >= MAX_PENDING && order != [] then
      assert forall i :: 0 <= i < |order| ==> order[i] in order;
      Put(Written(s, Oldest(s, order, 0, order[0])), c)
    else Put(s, c)
  }

  function Put(s: State, c: Call): State {
    s.(pending := s.pending[c.key := Pending(c.json, c.severity, 1, c.time)])
  }

  /** `LogAggregated` for a non-empty key; `order` and `order'` are the iteration orders before and after the flush. */
  function Aggregated(s: State, c: Call, order: seq<string>, order': seq<string>): State
    requires Enumerates(order', FlushFrom(s, order, 0, c.time, false).pending.Keys)
  {
    Joined(FlushFrom(s, order, 0, c.time, false), c, order')
  }

  // ---------------------------------------------------------------- what the lines say about the calls

  function CallsOf(calls: seq<Call>, key: string): seq<Call> {
    if calls == [] then []
    else
      var front, last := CallsOf(calls[..|calls| - 1], key), calls[|calls| - 1];
      if last.key == key then front + [last] else front
  }

  function LinesOf(lines: seq<Line>, key: string): seq<Line> {
    if lines == [] then []
    else
      var front, last := LinesOf(lines[..|lines| - 1], key), lines[|lines| - 1];
      if last.key == key then front + [last] else front
  }

  /** A burst: the first call's text and severity, each later call within two seconds of the one before. */
  predicate Burst(calls: seq<Call>, json: string, severity: Severity) {
    && calls != [] && calls[0].json == json && calls[0].severity == severity
    && forall i :: 0 <= i < |calls| - 1 ==> calls[i + 1].time - calls[i].time <= WINDOW_MS
  }

  /** The lines cut the calls into consecutive bursts, in order, each line counting its burst. */
  predicate Explains(lines: seq<Line>, calls: seq<Call>)
    decreases |lines|
  {
    if lines == [] then calls == []
    else
      var last := lines[|lines| - 1];
      && 1 <= last.count <= |calls|
      && Burst(calls[|calls| - last.count..], last.json, last.severity)
      && Explains(lines[..|lines| - 1], calls[..|calls| - last.count])
  }

  /** The lines of a key, the pending one last. */
  function AllLines(s: State, key: string): seq<Line> {
    LinesOf(s.written, key) + if key in s.pending then [LineOf(key, s.pending[key])] else []
  }

  predicate KeySound(s: State, calls: seq<Call>, key: string) {
    var own := CallsOf(calls, key);
    && Explains(AllLines(s, key), own)
    && (key in s.pending ==> own != [] && s.pending[key].lastSeen == own[|own| - 1].time)
  }

  ghost predicate Sound(s: State, calls: seq<Call>) {
    && |s.pending| <= MAX_PENDING
    && forall key: string :: KeySound(s, calls, key)
  }

  // ---------------------------------------------------------------- writing changes nothing for any key

  lemma LinesOfSnoc(lines: seq<Line>, l: Line, key: string)
    ensures LinesOf(lines + [l], key) == if l.key == key then LinesOf(lines, key) + [l] else LinesOf(lines, key)
  {
    assert (lines + [l])[..|lines|] == lines;
  }

  lemma WrittenSameLines(s: State, key: string, other: string)
    requires key in s.pending
    ensures AllLines(Written(s, key), other) == AllLines(s, other)
  {
    LinesOfSnoc(s.written, LineOf(key, s.pending[key]), other);
  }

  lemma Fewer(pending: map<string, Pending>, key: string)
    requires key in pending
    ensures |pending - {key}| == |pending| - 1
  {
    assert (pending - {key}).Keys == pending.Keys - {key};
    assert |pending| == |pending.Keys| && |pending - {key}| == |(pending - {key}).Keys|;
  }

  lemma WrittenKeeps(s: State, calls: seq<Call>, key: string)
    requires Sound(s, calls) && key in s.pending
    ensures Sound(Written(s, key), calls)
  {
    hide Explains, AllLines;
    Fewer(s.pending, key);
    forall other: string ensures KeySound(Written(s, key), calls, other) {
      WrittenSameLines(s, key, other);
      assert KeySound(s, calls, other);
    }
  }

  lemma {:induction false} FlushKeeps(s: State, calls: seq<Call>, order: seq<string>, k: nat, now: int, all: bool)
    requires Sound(s, calls)
    ensures Sound(FlushFrom(s, order, k, now, all), calls)
    ensures FlushFrom(s, order, k, now, all).pending.Keys <= s.pending.Keys
    decreases |order| - k
  {
    hide Sound;
    if k < |order| {
      if order[k] in s.pending && (all || Late(s.pending[order[k]], now)) {
        WrittenKeeps(s, calls, order[k]);
        FlushKeeps(Written(s, order[k]), calls, order, k + 1, now, all);
      } else {
        FlushKeeps(s, calls, order, k + 1, now, all);
      }
    }
  }

  /** What a flush leaves is what was pending and need not be written. */
  lemma {:induction false} FlushLeaves(s: State, order: seq<string>, k: nat, now: int, all: bool)
    ensures forall key <- FlushFrom(s, order, k, now, all).pending ::
              key in s.pending && FlushFrom(s, order, k, now, all).pending[key] == s.pending[key]
    ensures forall i :: k <= i < |order| && order[i] in FlushFrom(s, order, k, now, all).pending ==>
              !all && !Late(s.pending[order[i]], now)
    decreases |order| - k
  {
    hide Late;
    if k < |order| {
      if order[k] in s.pending && (all || Late(s.pending[order[k]], now)) {
        FlushLeaves(Written(s, order[k]), order, k + 1, now, all);
      } else {
        FlushLeaves(s, order, k + 1, now, all);
      }
    }
  }

  /** A full flush leaves nothing pending. */
  lemma FlushAllEmpties(s: State, order: seq<string>, now: int)
    requires Enumerates(order, s.pending.Keys)
    ensures FlushFrom(s, order, 0, now, true).pending == map[]
  {
    hide FlushFrom, Enumerates;
    forall key ensures key !in FlushFrom(s, order, 0, now, true).pending { KeyIsWritten(s, order, now, key); }
  }

  lemma KeyIsWritten(s: State, order: seq<string>, now: int, key: string)
    requires Enumerates(order, s.pending.Keys)
    ensures key !in FlushFrom(s, order, 0, now, true).pending
  {
    hide FlushFrom;
    FlushLeaves(s, order, 0, now, true);
    if key in s.pending {
      assert key in order;
      var i :| 0 <= i < |order| && order[i] == key;
    }
  }

  // ---------------------------------------------------------------- one call

  lemma CallsOfSnoc(calls: seq<Call>, c: Call, key: string)
    ensures CallsOf(calls + [c], key) == if c.key == key then CallsOf(calls, key) + [c] else CallsOf(calls, key)
  {
    assert (calls + [c])[..|calls|] == calls;
  }

  /** A call within two seconds makes the last burst longer by one. */
  lemma BurstGrows(lines: seq<Line>, last: Line, own: seq<Call>, c: Call)
    requires Explains(lines + [last], own) && own != [] && c.time - own[|own| - 1].time <= WINDOW_MS
    ensures Explains(lines + [last.(count := last.count + 1)], own + [c])
  {
    var n := last.count;
    var grown := lines + [last.(count := n + 1)];
    assert (lines + [last])[..|lines|] == lines && grown[..|lines|] == lines;
    assert (own + [c])[|own| + 1 - (n + 1)..] == own[|own| - n..] + [c];
    assert (own + [c])[..|own| - n] == own[..|own| - n];
  }

  /** A call on its own is a new burst. */
  lemma BurstStarts(lines: seq<Line>, own: seq<Call>, c: Call)
    requires Explains(lines, own)
    ensures Explains(lines + [Line(c.key, c.json, c.severity, 1)], own + [c])
  {
    var l := Line(c.key, c.json, c.severity, 1);
    assert (lines + [l])[..|lines|] == lines;
    assert (own + [c])[|own|..] == [c] && (own + [c])[..|own|] == own;
  }

  lemma PutKeeps(s: State, calls: seq<Call>, c: Call)
    requires Sound(s, calls) && c.key !in s.pending && |s.pending| < MAX_PENDING
    ensures Sound(Put(s, c), calls + [c])
  {
    hide Explains, LinesOf, CallsOf;
    var s' := Put(s, c);
    assert s'.pending.Keys == s.pending.Keys + {c.key};
    assert |s'.pending| == |s'.pending.Keys| && |s.pending| == |s.pending.Keys|;
    forall key: string ensures KeySound(s', calls + [c], key) {
      CallsOfSnoc(calls, c, key);
      assert KeySound(s, calls, key);
      if key == c.key {
        BurstStarts(AllLines(s, key), CallsOf(calls, key), c);
        assert LinesOf(s.written, key) + [] == LinesOf(s.written, key);
      }
    }
  }

  lemma RepeatKeeps(s: State, calls: seq<Call>, c: Call)
    requires Sound(s, calls) && c.key in s.pending && !Late(s.pending[c.key], c.time)
    ensures var p := s.pending[c.key];
            Sound(s.(pending := s.pending[c.key := p.(count := p.count + 1, lastSeen := c.time)]), calls + [c])
  {
    hide Explains, LinesOf, CallsOf;
    var p := s.pending[c.key];
    var s' := s.(pending := s.pending[c.key := p.(count := p.count + 1, lastSeen := c.time)]);
    assert s'.pending.Keys == s.pending.Keys;
    assert |s'.pending| == |s'.pending.Keys| && |s.pending| == |s.pending.Keys|;
    forall key: string ensures KeySound(s', calls + [c], key) {
      CallsOfSnoc(calls, c, key);
      assert KeySound(s, calls, key);
      if key == c.key { BurstGrows(LinesOf(s.written, key), LineOf(key, p), CallsOf(calls, key), c); }
    }
  }

  lemma SomeKey(s: State, order: seq<string>)
    requires Enumerates(order, s.pending.Keys)
    ensures order == [] ==> |s.pending| == 0
    ensures forall i :: 0 <= i < |order| ==> order[i] in s.pending
  {
    assert forall i :: 0 <= i < |order| ==> order[i] in order;
    if order == [] { assert s.pending.Keys == {}; assert s.pending == map[]; }
  }

  lemma JoinedKeeps(s: State, calls: seq<Call>, c: Call, order: seq<string>)
    requires Sound(s, calls) && Enumerates(order, s.pending.Keys)
    ensures Sound(Joined(s, c, order), calls + [c])
  {
    hide KeySound, Put, Enumerates;
    SomeKey(s, order);
    if c.key in s.pending && !Late(s.pending[c.key], c.time) {
      RepeatKeeps(s, calls, c);
    } else if c.key in s.pending {
      WrittenKeeps(s, calls, c.key);
      Fewer(s.pending, c.key);
      PutKeeps(Written(s, c.key), calls, c);
    } else if |s.pending| >= MAX_PENDING {
      var oldest := Oldest(s, order, 0, order[0]);
      WrittenKeeps(s, calls, oldest);
      Fewer(s.pending, oldest);
      PutKeeps(Written(s, oldest), calls, c);
    } else {
      PutKeeps(s, calls, c);
    }
  }

  /** Every call keeps every key's account, and at most 256 keys pending. */
  lemma AggregatedKeeps(s: State, calls: seq<Call>, c: Call, order: seq<string>, order': seq<string>)
    requires Sound(s, calls) && Enumerates(order', FlushFrom(s, order, 0, c.time, false).pending.Keys)
    ensures Sound(Aggregated(s, c, order, order'), calls + [c])
  {
    hide Sound, FlushFrom, Joined, Enumerates;
    FlushKeeps(s, calls, order, 0, c.time, false);
    JoinedKeeps(FlushFrom(s, order, 0, c.time, false), calls, c, order');
  }

  /** After the flush a pending record of the key is never late, so the writing branch behind it is never taken. */
  lemma LateBranchIsDead(s: State, c: Call, order: seq<string>)
    requires Enumerates(order, s.pending.Keys)
    ensures var s' := FlushFrom(s, order, 0, c.time, false); c.key in s'.pending ==> !Late(s'.pending[c.key], c.time)
  {
    hide FlushFrom, Late;
    FlushLeaves(s, order, 0, c.time, false);
    if c.key in FlushFrom(s, order, 0, c.time, false).pending {
      assert c.key in order;
      var i :| 0 <= i < |order| && order[i] == c.key;
    }
  }

  /** The record that is written out to make room is one that was seen longest ago. */
  lemma {:induction false} OldestIsOldest(s: State, order: seq<string>, k: nat, best: string)
    requires best in s.pending && forall i :: 0 <= i < |order| ==> order[i] in s.pending
    ensures var r := Oldest(s, order, k, best);
            && s.pending[r].lastSeen <= s.pending[best].lastSeen
            && forall i :: k <= i < |order| ==> s.pending[r].lastSeen <= s.pending[order[i]].lastSeen
    decreases |order| - k
  {
    if k < |order| {
      var better := s.pending[order[k]].lastSeen < s.pending[best].lastSeen;
      OldestIsOldest(s, order, k + 1, if better then order[k] else best);
    }
  }

  // ---------------------------------------------------------------- conservation

  function CountIn(lines: seq<Line>): nat {
    if lines == [] then 0 else CountIn(lines[..|lines| - 1]) + lines[|lines| - 1].count
  }

  lemma {:induction false} ExplainedCount(lines: seq<Line>, calls: seq<Call>)
    requires Explains(lines, calls)
    ensures CountIn(lines) == |calls|
    decreases |lines|
  {
    hide Burst;
    if lines != [] {
      ExplainedCount(lines[..|lines| - 1], calls[..|calls| - lines[|lines| - 1].count]);
    }
  }

  /** For every key, in every sound state: the calls made with it are the repeat
      counts written for it plus the pending one. */
  lemma CallsAreConserved(s: State, calls: seq<Call>, key: string)
    requires Sound(s, calls)
    ensures |CallsOf(calls, key)|
         == CountIn(LinesOf(s.written, key)) + if key in s.pending then s.pending[key].count else 0
  {
    hide Explains;
    assert KeySound(s, calls, key);
    ExplainedCount(AllLines(s, key), CallsOf(calls, key));
    if key in s.pending {
      var l := LineOf(key, s.pending[key]);
      assert (LinesOf(s.written, key) + [l])[..|LinesOf(s.written, key)|] == LinesOf(s.written, key);
    } else {
      assert AllLines(s, key) == LinesOf(s.written, key);
    }
  }

  // ---------------------------------------------------------------- whole runs

  /** A call of the logger, or a flush, with the iteration orders of the hash map that they meet. */
  datatype Event =
    | Called(call: Call, initialized: bool, order: seq<string>, order': seq<string>)
    | Flushed(now: int, order: seq<string>)

  /** Calls without a key are written directly, and calls without a text or before initialization are dropped. */
  predicate Aggregates(e: Event) { e.Called? && e.call.key != "" && e.initialized && e.call.json != "" }

  ghost predicate Iterates(s: State, e: Event) {
    && Enumerates(e.order, s.pending.Keys)
    && (e.Called? ==> Enumerates(e.order', FlushFrom(s, e.order, 0, e.call.time, false).pending.Keys))
  }

  function Step(s: State, e: Event): State
    requires Iterates(s, e)
  {
    match e
    case Called(c, _, order, order') => if Aggregates(e) then Aggregated(s, c, order, order') else s
    case Flushed(now, order) => FlushFrom(s, order, 0, now, true)
  }

  /** A run from the empty logger. */
  ghost predicate IsRun(states: seq<State>, events: seq<Event>) {
    && |states| == |events| + 1 && states[0] == State(map[], [])
    && forall k :: 0 <= k < |events| ==> Iterates(states[k], events[k]) && states[k + 1] == Step(states[k], events[k])
  }

  /** The calls among the first k events that are aggregated. */
  function CallsIn(events: seq<Event>, k: nat): seq<Call>
    requires k <= |events|
  {
    if k == 0 then []
    else CallsIn(events, k - 1) + if Aggregates(events[k - 1]) then [events[k - 1].call] else []
  }

  lemma StepKeeps(s: State, calls: seq<Call>, e: Event)
    requires Sound(s, calls) && Iterates(s, e)
    ensures Sound(Step(s, e), calls + if Aggregates(e) then [e.call] else [])
  {
    hide Sound, FlushFrom, Aggregated, Enumerates;
    assert calls + [] == calls;
    match e
    case Called(c, _, order, order') => if Aggregates(e) { AggregatedKeeps(s, calls, c, order, order'); }
    case Flushed(now, order) => FlushKeeps(s, calls, order, 0, now, true);
  }

  /** At every moment of every run the lines of every key, the pending one last,
      cut the calls made with it into bursts. */
  lemma {:induction false} EveryRunIsSound(states: seq<State>, events: seq<Event>, k: nat)
    requires IsRun(states, events) && k <= |events|
    ensures Sound(states[k], CallsIn(events, k))
    decreases k
  {
    hide Sound, Step, Iterates;
    if k == 0 {
      EmptyIsSound();
    } else {
      EveryRunIsSound(states, events, k - 1);
      assert states[k - 1 + 1] == Step(states[k - 1], events[k - 1]);
      StepKeeps(states[k - 1], CallsIn(events, k - 1), events[k - 1]);
    }
  }

  /** No call is lost or counted twice at any moment of any run: the calls a key has had are the repeat
      counts written for it and the pending one, and right after a flush they are all written. */
  lemma EveryCallIsCounted(states: seq<State>, events: seq<Event>, k: nat, key: string)
    requires IsRun(states, events) && k <= |events|
    ensures |CallsOf(CallsIn(events, k), key)|
         == CountIn(LinesOf(states[k].written, key))
            + if key in states[k].pending then states[k].pending[key].count else 0
    ensures k > 0 && events[k - 1].Flushed? ==>
              |CallsOf(CallsIn(events, k), key)| == CountIn(LinesOf(states[k].written, key))
  {
    hide Sound, CallsOf, LinesOf, CountIn, Aggregated, FlushFrom, Enumerates;
    EveryRunIsSound(states, events, k);
    CallsAreConserved(states[k], CallsIn(events, k), key);
    if k > 0 && events[k - 1].Flushed? {
      var before, e := states[k - 1], events[k - 1];
      assert Iterates(before, e) && states[k - 1 + 1] == Step(before, e);
      FlushAllEmpties(before, e.order, e.now);
    }
  }

  lemma SoundBound(s: State, calls: seq<Call>)
    requires Sound(s, calls)
    ensures |s.pending| <= MAX_PENDING
  {
  }

  lemma EmptyIsSound()
    ensures Sound(State(map[], []), [])
  {
  }

  // ---------------------------------------------------------------- the class

  class FileLogger {
    var pending: map<string, Pending>
    /** What was handed to the writer for aggregated keys. */
    var written: seq<Line>
    /** Texts handed to the writer without a key. */
    var direct: seq<(string, Severity)>
    ghost var calls: seq<Call>

    ghost function Contents(): State
      reads this
    {
      State(pending, written)
    }

    ghost predicate Valid()
      reads this
    {
      Sound(Contents(), calls)
    }

    constructor ()
      ensures Valid() && pending == map[] && written == [] && calls == [] && direct == []
    {
      pending, written, direct, calls := map[], [], [], [];
      new;
      EmptyIsSound();
    }

    method Log(json: string, severity: Severity, initialized: bool)
      modifies this`direct
      ensures direct == old(direct) + if initialized && json != "" then [(json, severity)] else []
    {
      if initialized && json != "" { direct := direct + [(json, severity)]; }
    }

    method FlushExpired(now: int, all: bool, order: seq<string>)
      requires Enumerates(order, pending.Keys)
      modifies this`pending, this`written
      ensures Contents() == FlushFrom(old(Contents()), order, 0, now, all)
    {
      var k := 0;
      while k < |order|
        invariant 0 <= k <= |order|
        invariant forall i :: k <= i < |order| ==> order[i] in pending
        invariant FlushFrom(Contents(), order, k, now, all) == FlushFrom(old(Contents()), order, 0, now, all)
      {
        if all || now - pending[order[k]].lastSeen > 2000 { Write(order[k]); }
        k := k + 1;
      }
    }

    method Write(key: string)
      requires key in pending
      modifies this`pending, this`written
      ensures Contents() == Written(old(Contents()), key)
    {
      written := written + [Line(key, pending[key].json, pending[key].severity, pending[key].count)];
      pending := pending - {key};
    }

    /** Aggregates a keyed call; `order` enumerates the pending keys, `order'`
        those that the flush of expired records leaves. */
    method LogAggregated(c: Call, initialized: bool, order: seq<string>, order': seq<string>)
      requires Valid() && Enumerates(order, pending.Keys)
      requires Enumerates(order', FlushFrom(Contents(), order, 0, c.time, false).pending.Keys)
      modifies this
      ensures Valid()
      ensures c.key == "" || !initialized || c.json == "" ==> Contents() == old(Contents()) && calls == old(calls)
      ensures c.key != "" && initialized && c.json != "" ==>
                Contents() == Aggregated(old(Contents()), c, order, order') && calls == old(calls) + [c]
      ensures Contents() == Step(old(Contents()), Called(c, initialized, order, order'))
    {
      hide Sound, Enumerates;
      if c.key == "" {
        Log(c.json, c.severity, initialized);
        return;
      }
      if !initialized || c.json == "" { return; }
      AggregatedKeeps(Contents(), calls, c, order, order');
      FlushKeeps(Contents(), calls, order, 0, c.time, false);
      SoundBound(FlushFrom(Contents(), order, 0, c.time, false), calls);
      FlushExpired(c.time, false, order);
      Aggregate(c, order');
      calls := calls + [c];
    }

    method Aggregate(c: Call, order: seq<string>)
      requires Enumerates(order, pending.Keys) && |pending| <= MAX_PENDING
      modifies this`pending, this`written
      ensures Contents() == Joined(old(Contents()), c, order)
    {
      hide Enumerates;
      SomeKey(Contents(), order);
      if c.key in pending {
        if c.time - pending[c.key].lastSeen <= 2000 {
          pending := pending[c.key := pending[c.key].(count := pending[c.key].count + 1, lastSeen := c.time)];
          return;
        }
        Write(c.key);
        Fewer(old(pending), c.key);
      }
      if |pending| >= 256 {
        var oldest := FindOldest(order);
        Write(oldest);
      }
      pending := pending[c.key := Pending(c.json, c.severity, 1, c.time)];
    }

    method FindOldest(order: seq<string>) returns (oldest: string)
      requires order != [] && forall i :: 0 <= i < |order| ==> order[i] in pending
      ensures oldest == Oldest(Contents(), order, 0, order[0])
    {
      oldest := order[0];
      var k := 0;
      while k < |order|
        invariant 0 <= k <= |order| && oldest in pending
        invariant Oldest(Contents(), order, k, oldest) == Oldest(Contents(), order, 0, order[0])
      {
        if pending[order[k]].lastSeen < pending[oldest].lastSeen { oldest := order[k]; }
        k := k + 1;
      }
    }

    method Flush(now: int, order: seq<string>)
      requires Valid() && Enumerates(order, pending.Keys)
      modifies this`pending, this`written
      ensures Valid() && pending == map[]
      ensures Contents() == Step(old(Contents()), Flushed(now, order)) && calls == old(calls)
    {
      hide Sound, Enumerates, FlushFrom;
      FlushKeeps(Contents(), calls, order, 0, now, true);
      FlushAllEmpties(Contents(), order, now);
      FlushExpired(now, true, order);
    }
  }
}
