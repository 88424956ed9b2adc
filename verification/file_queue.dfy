/** The bounded event queue of FILEEE/file_monitor.cpp (`SubmitEvent` and the drains of `MonitorLoop`). */
module FileQueue {

  const MAX_DEPTH: nat := 32768
  const MAX_CHARS: nat := 4 * 1024 * 1024
  const TEMP_DEPTH: nat := 24576
  const TEMP_CHARS: nat := 3 * 1024 * 1024

  datatype Action = Create | Write | Delete | Rename | Close | SetInfo

  /** `temp`: a known temporary path without an executable extension. */
  datatype FileEvent = FileEvent(path: string, oldPath: string, processName: string, action: Action, temp: bool)

  function Chars(e: FileEvent): nat { |e.path| + |e.oldPath| + |e.processName| }

  predicate LowValue(e: FileEvent) { e.temp && (e.action.Create? || e.action.Write? || e.action.Delete?) }

  /** The queue and its counters; `waiting` holds the events of callers that have been counted and have not yet
      entered the locked section. */
  datatype Queue = Queue(events: seq<FileEvent>, chars: nat, submitted: nat, coalesced: nat, dropped: nat,
                         waiting: multiset<FileEvent>)

  const NOTHING := Queue([], 0, 0, 0, 0, multiset{})

  function Minus(a: nat, b: nat): nat { if b <= a then a - b else 0 }

  // ---------------------------------------------------------------- the steps

  function Announced(q: Queue, e: FileEvent): Queue {
    q.(submitted := q.submitted + 1, waiting := q.waiting + multiset{e})
  }

  predicate Crowded(q: Queue, size: nat) { |q.events| >= MAX_DEPTH || q.chars + size > MAX_CHARS }

  function Popped(q: Queue): Queue
    requires q.events != []
  {
    q.(events := q.events[1..], chars := Minus(q.chars, Chars(q.events[0])))
  }

  /** Discards the oldest events until `size` characters more fit. */
  function MadeRoom(q: Queue, size: nat): Queue
    decreases |q.events|
  {
    if q.events != [] && Crowded(q, size) then MadeRoom(Popped(q).(dropped := q.dropped + 1), size) else q
  }

  predicate Coalesces(q: Queue, e: FileEvent) {
    LowValue(e) && (|q.events| >= TEMP_DEPTH || q.chars + Chars(e) > TEMP_CHARS)
  }

  /** The locked section of `SubmitEvent`. */
  function Entered(q: Queue, e: FileEvent): Queue {
    var q0 := q.(waiting := q.waiting - multiset{e});
    if Coalesces(q0, e) then q0.(coalesced := q0.coalesced + 1)
    else Appended(MadeRoom(q0, Chars(e)), e)
  }

  function Appended(q: Queue, e: FileEvent): Queue {
    if Chars(e) > MAX_CHARS then q.(dropped := q.dropped + 1)
    else q.(events := q.events + [e], chars := q.chars + Chars(e))
  }

  /** A drain takes everything under one lock. */
  function Drained(q: Queue): Queue
    decreases |q.events|
  {
    if q.events == [] then q else Drained(Popped(q))
  }

  // ---------------------------------------------------------------- what is kept

  function Total(events: seq<FileEvent>): nat {
    if events == [] then 0 else Chars(events[0]) + Total(events[1..])
  }

  lemma {:induction false} TotalAppend(p: seq<FileEvent>, q: seq<FileEvent>)
    ensures Total(p + q) == Total(p) + Total(q)
  {
    if p == [] {
      assert p + q == q;
    } else {
      assert (p + q)[1..] == p[1..] + q;
      TotalAppend(p[1..], q);
    }
  }

  /** The character count is exact and both bounds hold. */
  predicate Exact(q: Queue) {
    q.chars == Total(q.events) && |q.events| <= MAX_DEPTH && q.chars <= MAX_CHARS
  }

  /** The fates of all events that entered, in order of arrival. */
  datatype Fates = Fates(arrived: seq<FileEvent>, taken: seq<FileEvent>, lost: seq<FileEvent>, merged: seq<FileEvent>)

  /** Deleting some events of `ys` leaves `xs`. */
  predicate Subsequence(xs: seq<FileEvent>, ys: seq<FileEvent>)
    decreases |ys|
  {
    || xs == []
    || (ys != [] && (Subsequence(xs, ys[..|ys| - 1])
                     || (xs[|xs| - 1] == ys[|ys| - 1] && Subsequence(xs[..|xs| - 1], ys[..|ys| - 1]))))
  }

  /** Every event that entered was taken, is queued, was dropped or was merged away, exactly once; those taken and
      queued are in order of arrival. */
  predicate Accounted(q: Queue, f: Fates) {
    && multiset(f.arrived) == multiset(f.taken) + multiset(q.events) + multiset(f.lost) + multiset(f.merged)
    && Subsequence(f.taken + q.events, f.arrived)
    && q.dropped == |f.lost| && q.coalesced == |f.merged|
    && q.submitted == |q.waiting| + |f.arrived|
  }

  predicate Kept(q: Queue, f: Fates) { Exact(q) && Accounted(q, f) }

  // ---------------------------------------------------------------- subsequences

  lemma {:induction false} SubsequenceLonger(xs: seq<FileEvent>, ys: seq<FileEvent>, y: FileEvent)
    requires Subsequence(xs, ys)
    ensures Subsequence(xs, ys + [y]) && Subsequence(xs + [y], ys + [y])
  {
    assert (ys + [y])[..|ys|] == ys && (xs + [y])[..|xs|] == xs;
  }

  lemma {:induction false} SubsequenceWithout(xs: seq<FileEvent>, i: nat, ys: seq<FileEvent>)
    requires Subsequence(xs, ys) && i < |xs|
    ensures Subsequence(xs[..i] + xs[i + 1..], ys)
    decreases |ys|
  {
    var front := ys[..|ys| - 1];
    if Subsequence(xs, front) {
      SubsequenceWithout(xs, i, front);
    } else if i == |xs| - 1 {
      assert xs[..i] + xs[i + 1..] == xs[..|xs| - 1];
    } else {
      SubsequenceWithout(xs[..|xs| - 1], i, front);
      SameWithout(xs, i);
    }
  }

  lemma SameWithout(xs: seq<FileEvent>, i: nat)
    requires i < |xs| - 1
    ensures var ws := xs[..i] + xs[i + 1..];
            ws != [] && ws[|ws| - 1] == xs[|xs| - 1] && ws[..|ws| - 1] == xs[..|xs| - 1][..i] + xs[..|xs| - 1][i + 1..]
  {
  }

  // ---------------------------------------------------------------- every step keeps it

  /** The saturating subtraction never saturates. */
  lemma PoppedIsExact(q: Queue)
    requires Exact(q) && q.events != []
    ensures Exact(Popped(q)) && Popped(q).chars == q.chars - Chars(q.events[0])
  {
  }

  lemma SplitFirst(events: seq<FileEvent>)
    requires events != []
    ensures multiset(events) == multiset([events[0]]) + multiset(events[1..])
  {
    assert events == [events[0]] + events[1..];
  }

  lemma DropKeeps(q: Queue, f: Fates)
    requires Kept(q, f) && q.events != []
    ensures Kept(Popped(q).(dropped := q.dropped + 1), f.(lost := f.lost + [q.events[0]]))
  {
    hide Subsequence, Total;
    assert Exact(Popped(q)) by { PoppedIsExact(q); }
    hide Exact;
    DroppedIsLost(f.taken, q.events, f.lost, f.merged, f.arrived);
    DroppedKeepsOrder(f.taken, q.events, f.arrived);
  }

  lemma DroppedIsLost(taken: seq<FileEvent>, events: seq<FileEvent>, lost: seq<FileEvent>, merged: seq<FileEvent>,
                      arrived: seq<FileEvent>)
    requires events != []
    requires multiset(arrived) == multiset(taken) + multiset(events) + multiset(lost) + multiset(merged)
    ensures multiset(arrived) == multiset(taken) + multiset(events[1..]) + multiset(lost + [events[0]])
            + multiset(merged)
  {
    SplitFirst(events);
  }

  lemma DroppedKeepsOrder(taken: seq<FileEvent>, events: seq<FileEvent>, arrived: seq<FileEvent>)
    requires events != [] && Subsequence(taken + events, arrived)
    ensures Subsequence(taken + events[1..], arrived)
  {
    hide Subsequence;
    var all := taken + events;
    SubsequenceWithout(all, |taken|, arrived);
    assert all[..|taken|] + all[|taken| + 1..] == taken + events[1..];
  }

  lemma TakeKeeps(q: Queue, f: Fates)
    requires Kept(q, f) && q.events != []
    ensures Kept(Popped(q), f.(taken := f.taken + [q.events[0]]))
  {
    hide Subsequence, Total;
    SplitFirst(q.events);
    assert f.taken + [q.events[0]] + q.events[1..] == f.taken + q.events;
    assert Exact(Popped(q)) by { PoppedIsExact(q); }
  }

  lemma {:induction false} RoomKeeps(q: Queue, f: Fates, size: nat) returns (f': Fates, n: nat)
    requires Kept(q, f)
    ensures Kept(MadeRoom(q, size), f') && n <= |q.events|
    ensures f' == f.(lost := f.lost + q.events[..n]) && MadeRoom(q, size).events == q.events[n..]
    ensures MadeRoom(q, size).events == [] || !Crowded(MadeRoom(q, size), size)
    ensures MadeRoom(q, size).waiting == q.waiting
    decreases |q.events|
  {
    hide Kept, Crowded;
    if q.events != [] && Crowded(q, size) {
      DropKeeps(q, f);
      var q1 := Popped(q).(dropped := q.dropped + 1);
      f', n := RoomKeeps(q1, f.(lost := f.lost + [q.events[0]]), size);
      DroppedPrefix(q.events, n);
      assert f.lost + [q.events[0]] + q.events[1..][..n] == f.lost + ([q.events[0]] + q.events[1..][..n]);
      n := n + 1;
    } else {
      f', n := f, 0;
      assert q.events[..0] == [] && q.events[0..] == q.events && f.lost + [] == f.lost;
    }
  }

  lemma DroppedPrefix(events: seq<FileEvent>, n: nat)
    requires events != [] && n <= |events| - 1
    ensures [events[0]] + events[1..][..n] == events[..n + 1] && events[1..][n..] == events[n + 1..]
  {
  }

  /** The oldest events are dropped, and no more of them than needed: any longer rest would not fit. */
  lemma {:induction false} RoomIsMinimal(q: Queue, size: nat, n: nat)
    requires Exact(q) && |MadeRoom(q, size).events| < n <= |q.events|
    ensures n >= MAX_DEPTH || Total(q.events[|q.events| - n..]) + size > MAX_CHARS
    decreases |q.events|
  {
    hide Total;
    if q.events != [] && Crowded(q, size) {
      if n == |q.events| {
        assert q.events[0..] == q.events;
      } else {
        PoppedIsExact(q);
        RoomIsMinimal(Popped(q).(dropped := q.dropped + 1), size, n);
        assert q.events[1..][|q.events| - 1 - n..] == q.events[|q.events| - n..];
      }
    }
  }

  /** One event more, on the side where it ends up. */
  lemma OneMore(arrived: seq<FileEvent>, t: multiset<FileEvent>, q: multiset<FileEvent>, l: multiset<FileEvent>,
                m: multiset<FileEvent>, e: FileEvent)
    requires multiset(arrived) == t + q + l + m
    ensures multiset(arrived + [e]) == t + q + l + (m + multiset{e})
    ensures multiset(arrived + [e]) == t + q + (l + multiset{e}) + m
    ensures multiset(arrived + [e]) == t + (q + multiset{e}) + l + m
  {
    assert multiset(arrived + [e]) == multiset(arrived) + multiset{e};
  }

  lemma OneLess(waiting: multiset<FileEvent>, e: FileEvent)
    requires e in waiting
    ensures |waiting - multiset{e}| == |waiting| - 1
  {
    assert waiting == (waiting - multiset{e}) + multiset{e};
  }

  lemma ArrivedCoalesced(q: Queue, f: Fates, e: FileEvent)
    requires Kept(q, f) && e in q.waiting
    ensures Kept(q.(waiting := q.waiting - multiset{e}, coalesced := q.coalesced + 1),
                 f.(arrived := f.arrived + [e], merged := f.merged + [e]))
  {
    hide Subsequence, Total;
    SubsequenceLonger(f.taken + q.events, f.arrived, e);
    OneLess(q.waiting, e);
    OneMore(f.arrived, multiset(f.taken), multiset(q.events), multiset(f.lost), multiset(f.merged), e);
    assert multiset(f.merged + [e]) == multiset(f.merged) + multiset{e};
  }

  lemma ArrivedLost(q: Queue, f: Fates, e: FileEvent)
    requires Kept(q, f) && e in q.waiting
    ensures Kept(q.(waiting := q.waiting - multiset{e}, dropped := q.dropped + 1),
                 f.(arrived := f.arrived + [e], lost := f.lost + [e]))
  {
    hide Subsequence, Total;
    SubsequenceLonger(f.taken + q.events, f.arrived, e);
    OneLess(q.waiting, e);
    OneMore(f.arrived, multiset(f.taken), multiset(q.events), multiset(f.lost), multiset(f.merged), e);
    assert multiset(f.lost + [e]) == multiset(f.lost) + multiset{e};
  }

  lemma ArrivedQueued(q: Queue, f: Fates, e: FileEvent)
    requires Kept(q, f) && e in q.waiting && |q.events| < MAX_DEPTH && q.chars + Chars(e) <= MAX_CHARS
    ensures Kept(q.(waiting := q.waiting - multiset{e}, events := q.events + [e], chars := q.chars + Chars(e)),
                 f.(arrived := f.arrived + [e]))
  {
    hide Subsequence, Total;
    SubsequenceLonger(f.taken + q.events, f.arrived, e);
    assert f.taken + q.events + [e] == f.taken + (q.events + [e]);
    OneLess(q.waiting, e);
    OneMore(f.arrived, multiset(f.taken), multiset(q.events), multiset(f.lost), multiset(f.merged), e);
    assert multiset(q.events + [e]) == multiset(q.events) + multiset{e};
    TotalSnoc(q.events, e);
  }

  lemma TotalSnoc(events: seq<FileEvent>, e: FileEvent)
    ensures Total(events + [e]) == Total(events) + Chars(e)
  {
    TotalAppend(events, [e]);
    assert [e][1..] == [] && Total([]) == 0;
  }

  lemma {:induction false} RoomIgnoresWaiting(q: Queue, size: nat, waiting: multiset<FileEvent>)
    ensures MadeRoom(q.(waiting := waiting), size) == MadeRoom(q, size).(waiting := waiting)
    decreases |q.events|
  {
    if q.events != [] && Crowded(q, size) {
      var q1 := Popped(q).(dropped := q.dropped + 1);
      RoomIgnoresWaiting(q1, size, waiting);
      assert Popped(q.(waiting := waiting)).(dropped := q.dropped + 1) == q1.(waiting := waiting);
    }
  }

  /** Entering keeps conservation, order, the exact character count and both bounds. */
  lemma EnterKeeps(q: Queue, f: Fates, e: FileEvent) returns (f': Fates)
    requires Kept(q, f) && e in q.waiting
    ensures Kept(Entered(q, e), f') && f'.arrived == f.arrived + [e] && f'.taken == f.taken
    ensures f'.merged == f.merged + (if Coalesces(q, e) then [e] else [])
  {
    hide Kept, MadeRoom;
    var left := q.waiting - multiset{e};
    if Coalesces(q, e) {
      ArrivedCoalesced(q, f, e);
      f' := f.(arrived := f.arrived + [e], merged := f.merged + [e]);
    } else {
      RoomIgnoresWaiting(q, Chars(e), left);
      var f1, _ := RoomKeeps(q, f, Chars(e));
      var q1 := MadeRoom(q, Chars(e));
      if Chars(e) > MAX_CHARS {
        ArrivedLost(q1, f1, e);
        f' := f1.(arrived := f1.arrived + [e], lost := f1.lost + [e]);
      } else {
        EmptyFits(q1, f1);
        ArrivedQueued(q1, f1, e);
        f' := f1.(arrived := f1.arrived + [e]);
      }
    }
  }

  lemma EmptyFits(q: Queue, f: Fates)
    requires Kept(q, f)
    ensures q.events == [] ==> q.chars == 0
  {
  }

  lemma AnnounceKeeps(q: Queue, f: Fates, e: FileEvent)
    requires Kept(q, f)
    ensures Kept(Announced(q, e), f)
  {
    hide Subsequence, Total;
  }

  lemma {:induction false} DrainKeeps(q: Queue, f: Fates)
    requires Kept(q, f)
    ensures Kept(Drained(q), f.(taken := f.taken + q.events)) && Drained(q).events == [] && Drained(q).chars == 0
    ensures Drained(q) == q.(events := [], chars := 0)
    decreases |q.events|
  {
    hide Kept;
    if q.events == [] {
      assert f.taken + q.events == f.taken;
      EmptyFits(q, f);
    } else {
      TakeKeeps(q, f);
      DrainKeeps(Popped(q), f.(taken := f.taken + [q.events[0]]));
      assert f.taken + [q.events[0]] + q.events[1..] == f.taken + q.events;
    }
  }

  // ---------------------------------------------------------------- all interleavings

  /** One atomic step of a submitter or of the consumer. */
  datatype Step = Announce(e: FileEvent) | Enter(e: FileEvent) | Drain

  predicate Enabled(q: Queue, step: Step) { step.Enter? ==> step.e in q.waiting }

  function Next(q: Queue, step: Step): Queue {
    match step
    case Announce(e) => Announced(q, e)
    case Enter(e) => Entered(q, e)
    case Drain => Drained(q)
  }

  predicate IsRun(qs: seq<Queue>, steps: seq<Step>) {
    && |qs| == |steps| + 1 && qs[0] == NOTHING
    && forall k :: 0 <= k < |steps| ==> Enabled(qs[k], steps[k]) && qs[k + 1] == Next(qs[k], steps[k])
  }

  lemma NothingKept()
    ensures Kept(NOTHING, Fates([], [], [], []))
  {
  }

  /** The events that the first k steps let into the locked section, in order. */
  function Arrived(steps: seq<Step>, k: nat): seq<FileEvent>
    requires k <= |steps|
  {
    if k == 0 then []
    else Arrived(steps, k - 1) + if steps[k - 1].Enter? then [steps[k - 1].e] else []
  }

  /** What the drains among the first k steps took, in order. */
  function Taken(qs: seq<Queue>, steps: seq<Step>, k: nat): seq<FileEvent>
    requires k <= |steps| && |qs| == |steps| + 1
  {
    if k == 0 then []
    else Taken(qs, steps, k - 1) + if steps[k - 1].Drain? then qs[k - 1].events else []
  }

  lemma {:induction false} EveryRunKeeps(qs: seq<Queue>, steps: seq<Step>, k: nat) returns (f: Fates)
    requires IsRun(qs, steps) && k < |qs|
    ensures Kept(qs[k], f) && f.arrived == Arrived(steps, k) && f.taken == Taken(qs, steps, k)
    decreases k
  {
    hide Kept, Next;
    if k == 0 {
      NothingKept();
      f := Fates([], [], [], []);
    } else {
      f := EveryRunKeeps(qs, steps, k - 1);
      assert qs[k - 1 + 1] == Next(qs[k - 1], steps[k - 1]);
      f := StepKeeps(qs[k - 1], f, steps[k - 1]);
    }
  }

  lemma StepKeeps(q: Queue, f: Fates, step: Step) returns (f': Fates)
    requires Kept(q, f) && Enabled(q, step)
    ensures Kept(Next(q, step), f')
    ensures f'.arrived == f.arrived + if step.Enter? then [step.e] else []
    ensures f'.taken == f.taken + if step.Drain? then q.events else []
  {
    hide Kept, Entered, Drained, Announced;
    match step
    case Announce(e) =>
      AnnounceKeeps(q, f, e);
      f' := f;
    case Enter(e) =>
      f' := EnterKeeps(q, f, e);
    case Drain =>
      DrainKeeps(q, f);
      f' := f.(taken := f.taken + q.events);
  }

  lemma {:induction false} SubsequenceFits(xs: seq<FileEvent>, ys: seq<FileEvent>)
    requires Subsequence(xs, ys)
    ensures |xs| <= |ys|
    decreases |ys|
  {
    if xs != [] {
      var front := ys[..|ys| - 1];
      if Subsequence(xs, front) { SubsequenceFits(xs, front); } else { SubsequenceFits(xs[..|xs| - 1], front); }
    }
  }

  /** Conservation over all interleavings: at every moment of every run, what was submitted is
      what still waits for the lock, was coalesced, was dropped, is queued or was taken by a
      drain; every event that entered has exactly one of the last four fates; those taken and
      queued are in order of arrival; the character count is exact, and both bounds hold. */
  lemma NothingVanishes(qs: seq<Queue>, steps: seq<Step>, k: nat) returns (lost: seq<FileEvent>, merged: seq<FileEvent>)
    requires IsRun(qs, steps) && k < |qs|
    ensures var q, arrived, taken := qs[k], Arrived(steps, k), Taken(qs, steps, k);
            && q.submitted == |q.waiting| + q.coalesced + q.dropped + |q.events| + |taken|
            && |lost| == q.dropped && |merged| == q.coalesced
            && multiset(arrived) == multiset(taken) + multiset(q.events) + multiset(lost) + multiset(merged)
            && Subsequence(taken + q.events, arrived)
            && q.chars == Total(q.events) && |q.events| <= MAX_DEPTH && q.chars <= MAX_CHARS
  {
    hide IsRun, Subsequence, Total, Arrived, Taken;
    var f := EveryRunKeeps(qs, steps, k);
    CountParts(f.arrived, f.taken, qs[k].events, f.lost, f.merged);
    lost, merged := f.lost, f.merged;
  }

  lemma CountParts(all: seq<FileEvent>, a: seq<FileEvent>, b: seq<FileEvent>, c: seq<FileEvent>, d: seq<FileEvent>)
    requires multiset(all) == multiset(a) + multiset(b) + multiset(c) + multiset(d)
    ensures |all| == |a| + |b| + |c| + |d|
  {
    assert |multiset(all)| == |all|;
  }

  /** An event that could never fit still empties the queue before it is dropped itself. */
  lemma OversizedEmptiesQueue(q: Queue, f: Fates, e: FileEvent)
    requires Kept(q, f) && e in q.waiting && Chars(e) > MAX_CHARS && !Coalesces(q, e)
    ensures Entered(q, e).events == []
  {
    hide Kept, MadeRoom;
    RoomIgnoresWaiting(q, Chars(e), q.waiting - multiset{e});
    var _, _ := RoomKeeps(q, f, Chars(e));
  }

  // ---------------------------------------------------------------- the class

  class EventQueue {
    var eventQueue: seq<FileEvent>
    var queuedEventChars: nat
    var submittedEvents: nat
    var coalescedTempEvents: nat
    var droppedEvents: nat
    ghost var waiting: multiset<FileEvent>
    ghost var fates: Fates

    ghost function Contents(): Queue
      reads this
    {
      Queue(eventQueue, queuedEventChars, submittedEvents, coalescedTempEvents, droppedEvents, waiting)
    }

    ghost predicate Valid()
      reads this
    {
      Kept(Contents(), fates)
    }

    constructor ()
      ensures Valid() && Contents() == NOTHING
    {
      eventQueue, queuedEventChars, submittedEvents, coalescedTempEvents, droppedEvents := [], 0, 0, 0, 0;
      waiting, fates := multiset{}, Fates([], [], [], []);
      new;
      NothingKept();
    }

    /** The part before the lock; a stopped or switched-off monitor counts nothing. */
    method CountSubmission(event: FileEvent, active: bool) returns (go: bool)
      requires Valid()
      modifies this`submittedEvents, this`waiting
      ensures Valid() && go == active
      ensures Contents() == if active then Announced(old(Contents()), event) else old(Contents())
    {
      hide Kept;
      if !active { return false; }
      AnnounceKeeps(Contents(), fates, event);
      submittedEvents := submittedEvents + 1;
      waiting := waiting + multiset{event};
      return true;
    }

    /** The part under the lock. */
    method EnterQueue(event: FileEvent)
      requires Valid() && event in waiting
      modifies this
      ensures Valid() && Contents() == Entered(old(Contents()), event)
      ensures fates.taken == old(fates.taken) && fates.arrived == old(fates.arrived) + [event]
    {
      hide Kept, Entered;
      ghost var f := EnterKeeps(Contents(), fates, event);
      Insert(event);
      fates := f;
    }

    method Insert(event: FileEvent)
      modifies this`eventQueue, this`queuedEventChars, this`coalescedTempEvents, this`droppedEvents, this`waiting
      ensures Contents() == Entered(old(Contents()), event)
    {
      hide MadeRoom, LowValue;
      waiting := waiting - multiset{event};
      var chars := |event.path| + |event.oldPath| + |event.processName|;
      if LowValue(event) && (|eventQueue| >= TEMP_DEPTH || queuedEventChars + chars > TEMP_CHARS) {
        coalescedTempEvents := coalescedTempEvents + 1;
      } else {
        Append(event, chars);
      }
    }

    method Append(event: FileEvent, chars: nat)
      requires chars == Chars(event)
      modifies this`eventQueue, this`queuedEventChars, this`droppedEvents
      ensures Contents() == Appended(MadeRoom(old(Contents()), chars), event)
    {
      hide MadeRoom;
      DropOldest(chars);
      if chars > MAX_CHARS {
        droppedEvents := droppedEvents + 1;
      } else {
        eventQueue := eventQueue + [event];
        queuedEventChars := queuedEventChars + chars;
      }
    }

    method DropOldest(chars: nat)
      modifies this`eventQueue, this`queuedEventChars, this`droppedEvents
      ensures Contents() == MadeRoom(old(Contents()), chars)
    {
      while eventQueue != [] && (|eventQueue| >= MAX_DEPTH || queuedEventChars + chars > MAX_CHARS)
        invariant MadeRoom(Contents(), chars) == MadeRoom(old(Contents()), chars)
        decreases |eventQueue|
      {
        var discarded := |eventQueue[0].path| + |eventQueue[0].oldPath| + |eventQueue[0].processName|;
        queuedEventChars := if discarded <= queuedEventChars then queuedEventChars - discarded else 0;
        eventQueue := eventQueue[1..];
        droppedEvents := droppedEvents + 1;
      }
    }

    /** A drain: the batch is the whole queue, in order. */
    method TakeAll() returns (batch: seq<FileEvent>)
      requires Valid()
      modifies this
      ensures Valid() && batch == old(eventQueue) && eventQueue == [] && queuedEventChars == 0
      ensures Contents() == Drained(old(Contents())) && fates.taken == old(fates.taken) + batch
    {
      hide Kept, Drained;
      DrainKeeps(Contents(), fates);
      batch := PopAll();
      fates := fates.(taken := fates.taken + batch);
    }

    method PopAll() returns (batch: seq<FileEvent>)
      modifies this`eventQueue, this`queuedEventChars
      ensures Contents() == Drained(old(Contents())) && batch == old(eventQueue)
    {
      batch := [];
      ghost var start := Contents();
      while eventQueue != []
        invariant Drained(Contents()) == Drained(start) && batch + eventQueue == start.events
        decreases |eventQueue|
      {
        var front := eventQueue[0];
        var chars := |front.path| + |front.oldPath| + |front.processName|;
        queuedEventChars := if chars <= queuedEventChars then queuedEventChars - chars else 0;
        assert batch + eventQueue == batch + [front] + eventQueue[1..];
        batch := batch + [front];
        eventQueue := eventQueue[1..];
      }
    }
  }
}
