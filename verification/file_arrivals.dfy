/** What becomes of one event that enters the queue of FILEEE/file_monitor.cpp, in numbers of events and characters. */
module FileArrivals {
  import opened FileQueue

  /** Characters of the two paths and the process name. */
  function Size(e: FileEvent): nat { |e.path| + |e.oldPath| + |e.processName| }

  function SizeOf(events: seq<FileEvent>): nat {
    if events == [] then 0 else SizeOf(events[..|events| - 1]) + Size(events[|events| - 1])
  }

  /** Creations, writes and deletions of temporary files, which may be merged
      away when the queue is three quarters full. */
  predicate IsMergeable(e: FileEvent) { e.temp && e.action in {Create, Write, Delete} }

  predicate IsMerged(events: seq<FileEvent>, e: FileEvent) {
    IsMergeable(e) && (|events| >= 24576 || SizeOf(events) + Size(e) > 3145728)
  }

  /** The event fits behind these. */
  predicate Fits(events: seq<FileEvent>, e: FileEvent) {
    |events| <= 32767 && SizeOf(events) + Size(e) <= 4194304
  }

  /** The first n events make room: no fewer would do, and if even the empty queue has no room all of them go. */
  predicate RoomAfter(events: seq<FileEvent>, e: FileEvent, n: nat) {
    && n <= |events| && (n == |events| || Fits(events[n..], e))
    && forall k :: 0 <= k < n ==> !Fits(events[k..], e)
  }

  lemma {:induction false} SizeCons(e: FileEvent, events: seq<FileEvent>)
    ensures SizeOf([e] + events) == Size(e) + SizeOf(events)
  {
    hide Size;
    if events == [] {
      assert [e] + events == [e] && [e][..0] == [];
    } else {
      var front, last := events[..|events| - 1], events[|events| - 1];
      assert ([e] + events)[..|events|] == [e] + front;
      SizeCons(e, front);
    }
  }

  lemma {:induction false} SizeIsTotal(events: seq<FileEvent>)
    ensures SizeOf(events) == Total(events)
  {
    if events != [] {
      SizeIsTotal(events[1..]);
      SizeCons(events[0], events[1..]);
      assert events == [events[0]] + events[1..];
    }
  }

  lemma FitsExactly(q: Queue, e: FileEvent)
    requires Exact(q)
    ensures Fits(q.events, e) <==> !Crowded(q, Chars(e))
    ensures IsMerged(q.events, e) <==> Coalesces(q, e)
  {
    hide Total, SizeOf;
    SizeIsTotal(q.events);
  }

  /** What making room leaves: the queue without its first n events, each counted as dropped. */
  predicate Shortened(q: Queue, q': Queue, n: nat) {
    && n <= |q.events| && q'.events == q.events[n..] && q'.dropped == q.dropped + n
    && q'.submitted == q.submitted && q'.coalesced == q.coalesced && q'.waiting == q.waiting
  }

  lemma {:induction false} RoomExactly(q: Queue, e: FileEvent) returns (n: nat)
    requires Exact(q)
    ensures RoomAfter(q.events, e, n) && Shortened(q, MadeRoom(q, Chars(e)), n) && Exact(MadeRoom(q, Chars(e)))
    decreases |q.events|
  {
    hide Exact, Fits, Crowded, Chars;
    FitsExactly(q, e);
    assert q.events[0..] == q.events;
    n := 0;
    if q.events != [] && Crowded(q, Chars(e)) {
      var q1 := Popped(q).(dropped := q.dropped + 1);
      assert Exact(q1) by { PoppedDropped(q); }
      n := RoomExactly(q1, e);
      RoomLater(q.events, e, n);
      n := n + 1;
    }
  }

  lemma PoppedDropped(q: Queue)
    requires Exact(q) && q.events != []
    ensures Exact(Popped(q).(dropped := q.dropped + 1))
  {
    PoppedIsExact(q);
  }

  lemma RoomLater(events: seq<FileEvent>, e: FileEvent, n: nat)
    requires events != [] && !Fits(events, e) && RoomAfter(events[1..], e, n)
    ensures RoomAfter(events, e, n + 1) && events[1..][n..] == events[n + 1..]
  {
    hide Fits;
    forall k | 0 <= k < n + 1 ensures !Fits(events[k..], e) {
      if k == 0 { assert events[0..] == events; } else { assert events[1..][k - 1..] == events[k..]; }
    }
    assert n < |events[1..]| ==> events[1..][n..] == events[n + 1..];
  }

  /** The three fates of an arriving event: merged away; dropped because it is larger than 4 MiB, after
      which the queue is empty; or queued last, behind what is left once the oldest have made room. */
  predicate Arrives(q: Queue, q': Queue, e: FileEvent, n: nat) {
    && q'.submitted == q.submitted && q'.waiting == q.waiting - multiset{e}
    && if IsMerged(q.events, e) then
         n == 0 && q'.events == q.events && q'.coalesced == q.coalesced + 1 && q'.dropped == q.dropped
       else
         && RoomAfter(q.events, e, n) && q'.coalesced == q.coalesced
         && if Size(e) > 4194304 then n == |q.events| && q'.events == [] && q'.dropped == q.dropped + n + 1
            else q'.events == q.events[n..] + [e] && q'.dropped == q.dropped + n
  }

  /** The locked section does exactly this. */
  lemma ArrivalExactly(q: Queue, e: FileEvent) returns (n: nat)
    requires Exact(q)
    ensures Arrives(q, Entered(q, e), e, n)
  {
    hide Exact, RoomAfter, Chars, Coalesces, IsMerged, MadeRoom;
    var q0 := q.(waiting := q.waiting - multiset{e});
    assert Exact(q0) by { WaitingIsFree(q, q0.waiting); }
    FitsExactly(q0, e);
    n := 0;
    if !Coalesces(q0, e) {
      n := RoomExactly(q0, e);
      OversizedRoom(q.events, e, n);
      SameSize(e);
      assert q.events[|q.events|..] == [];
    }
  }

  lemma WaitingIsFree(q: Queue, waiting: multiset<FileEvent>)
    requires Exact(q)
    ensures Exact(q.(waiting := waiting))
  {
    hide Total;
  }

  lemma SameSize(e: FileEvent)
    ensures Size(e) == Chars(e)
  {
  }

  lemma OversizedRoom(events: seq<FileEvent>, e: FileEvent, n: nat)
    requires RoomAfter(events, e, n)
    ensures Size(e) > 4194304 ==> n == |events|
  {
    hide Size, SizeOf;
  }

  /** Over every run: an event that is neither mergeable nor larger than 4 MiB is
      the last of the queue when it has entered. */
  lemma EveryOtherEventIsQueued(qs: seq<Queue>, steps: seq<Step>, k: nat)
    requires IsRun(qs, steps) && k < |steps| && steps[k].Enter? && !IsMergeable(steps[k].e)
    requires Size(steps[k].e) <= 4194304
    ensures |qs| == |steps| + 1 && qs[k + 1].events != [] && qs[k + 1].events[|qs[k + 1].events| - 1] == steps[k].e
    ensures qs[k + 1].coalesced == qs[k].coalesced
  {
    hide Exact, Accounted, Entered, RoomAfter, Size;
    var f := EveryRunKeeps(qs, steps, k);
    assert Exact(qs[k]);
    var n := ArrivalExactly(qs[k], steps[k].e);
  }
}
