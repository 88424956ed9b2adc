/** How one call shares its byte budget: the newest file first, the older ones fairly. */
module TailerBudget {
  import LineSplit
  import opened TailerSpec
  import opened TailerTheorems

  /** Bytes of a file that its reader has not read yet. */
  function Unread(files: map<string, FileState>, e: Entry): nat {
    |e.content| - Rewound(StateOf(files, e.path), e.content).lastOffset
  }

  /** The file can be read in this call: its size is known, it is not skipped by
      a bootstrap, and reads are served in full. */
  predicate Readable(t: Tailer, e: Entry) {
    e.sized && (e.path in t.files || !t.bootstrap) && |e.content| <= e.served
  }

  function Remaining(t: Tailer, entries: seq<Entry>, maxBytes: nat, k: nat): int
    requires k <= |entries|
  {
    maxBytes - ReadUpTo(t, entries, maxBytes, k).used
  }

  /** Bytes read from the k-th listed file. */
  function ReadFrom(t: Tailer, entries: seq<Entry>, maxBytes: nat, k: nat): int
    requires k < |entries|
  {
    ReadUpTo(t, entries, maxBytes, k + 1).used - ReadUpTo(t, entries, maxBytes, k).used
  }

  lemma {:induction false} OthersUntouched(t: Tailer, entries: seq<Entry>, maxBytes: nat, k: nat, p: string)
    requires k <= |entries| && forall i :: 0 <= i < k ==> entries[i].path != p
    ensures SameFile(t.files, ReadUpTo(t, entries, maxBytes, k).files, p)
    decreases k
  {
    hide ReadFile, Budget;
    if k > 0 { OthersUntouched(t, entries, maxBytes, k - 1, p); }
  }

  /** A file never gets more than its budget, and a readable one gets all of it that it can use. */
  lemma EntryReads(t: Tailer, entries: seq<Entry>, maxBytes: nat, k: nat)
    requires k < |entries| && DistinctPaths(entries) && Remaining(t, entries, maxBytes, k) >= 0
    ensures var r := Remaining(t, entries, maxBytes, k);
            && 0 <= ReadFrom(t, entries, maxBytes, k) <= r
            && (r > 0 ==> ReadFrom(t, entries, maxBytes, k) <= Budget(k, |entries|, r))
            && (r > 0 && Readable(t, entries[k]) ==>
                  ReadFrom(t, entries, maxBytes, k) == Min(Unread(t.files, entries[k]), Budget(k, |entries|, r)))
  {
    hide Budget, ReadUpTo, ReadFile;
    var c, e, n := ReadUpTo(t, entries, maxBytes, k), entries[k], |entries|;
    OthersUntouched(t, entries, maxBytes, k, e.path);
    OneMore(t, entries, maxBytes, k);
    ReadFileGot(StateOf(c.files, e.path), e.content, Budget(k, n, Max(maxBytes, c.used) - c.used), e.served);
    BudgetWithin(k, |entries|, Remaining(t, entries, maxBytes, k));
  }

  lemma OneMore(t: Tailer, entries: seq<Entry>, maxBytes: nat, k: nat)
    requires k < |entries|
    ensures ReadUpTo(t, entries, maxBytes, k + 1)
         == ReadEntry(ReadUpTo(t, entries, maxBytes, k), entries[k], t.bootstrap, k, |entries|, maxBytes)
  {
  }

  lemma ReadFileGot(f: FileState, content: string, budget: nat, served: nat)
    ensures ReadFile(f, content, budget, served).got
            == Min(Min(|content| - Rewound(f, content).lastOffset, budget), served)
  {
    hide LineSplit.CompleteLines, LineSplit.Unfinished;
  }

  lemma BudgetWithin(k: nat, n: nat, remaining: nat)
    requires k < n
    ensures Budget(k, n, remaining) <= remaining
  {
  }

  /** A call never reads more than its limit. */
  lemma {:induction false} NeverOverLimit(t: Tailer, entries: seq<Entry>, maxBytes: nat, k: nat)
    requires k <= |entries| && DistinctPaths(entries)
    ensures Remaining(t, entries, maxBytes, k) >= 0
    decreases k
  {
    hide ReadEntry;
    if k > 0 {
      NeverOverLimit(t, entries, maxBytes, k - 1);
      EntryReads(t, entries, maxBytes, k - 1);
    }
  }

  /** The newest file gets as much of the whole limit as it has unread. */
  lemma NewestIsNeverThrottled(t: Tailer, entries: seq<Entry>, maxBytes: nat)
    requires entries != [] && DistinctPaths(entries) && maxBytes > 0 && Readable(t, entries[0])
    ensures ReadFrom(t, entries, maxBytes, 0) == Min(Unread(t.files, entries[0]), maxBytes)
  {
    EntryReads(t, entries, maxBytes, 0);
  }

  /** `share` bytes for each of m files. */
  function Shares(share: nat, m: nat): nat { if m == 0 then 0 else share + Shares(share, m - 1) }

  lemma {:induction false} SharesIsProduct(share: nat, m: nat)
    ensures Shares(share, m) == share * m
  {
    if m > 0 { SharesIsProduct(share, m - 1); }
  }

  lemma {:induction false} SharesGrow(a: nat, b: nat, m: nat)
    requires a <= b
    ensures Shares(a, m) <= Shares(b, m)
  {
    if m > 0 { SharesGrow(a, b, m - 1); }
  }

  /** The equal share of x among m is the largest that fits. */
  lemma EqualShare(x: nat, m: nat)
    requires m > 0
    ensures Shares(x / m, m) <= x < Shares(x / m + 1, m)
  {
    SharesIsProduct(x / m, m);
    SharesIsProduct(x / m + 1, m);
  }

  lemma EqualShareAtLeast(x: nat, m: nat, q: nat)
    requires m > 0 && x >= Shares(q, m)
    ensures x / m >= q
  {
    EqualShare(x, m);
    hide Shares;
    if x / m < q {
      SharesGrow(x / m + 1, q, m);
      assert false;
    }
  }

  /** After one equal share is taken, enough is left for the rest. */
  lemma ShareLeavesEnough(remaining: nat, m: nat, q: nat)
    requires m > 0 && remaining >= Shares(q, m)
    ensures remaining / m >= q && remaining - remaining / m >= Shares(q, m - 1)
  {
    EqualShareAtLeast(remaining, m, q);
    EqualShare(remaining, m);
    SharesGrow(q, remaining / m, m - 1);
  }

  lemma RemainingStep(t: Tailer, entries: seq<Entry>, maxBytes: nat, k: nat)
    requires k < |entries|
    ensures Remaining(t, entries, maxBytes, k + 1)
            == Remaining(t, entries, maxBytes, k) - ReadFrom(t, entries, maxBytes, k)
  {
  }

  lemma BudgetIsShare(k: nat, n: nat, remaining: nat, q: nat)
    requires 1 <= k < n && q >= FAIR_FLOOR && remaining / (n - k) >= q
    ensures Budget(k, n, remaining) == remaining / (n - k) && remaining > 0
  {
    assert remaining / (n - k) <= remaining;
  }

  /** What every call position still has to give: at least an equal share for each file that is left. */
  lemma {:induction false} EnoughRemains(t: Tailer, entries: seq<Entry>, maxBytes: nat, j: nat, q: nat)
    requires 1 <= j <= |entries| && DistinctPaths(entries)
    requires q >= FAIR_FLOOR && Remaining(t, entries, maxBytes, 1) >= Shares(q, |entries| - 1)
    ensures Remaining(t, entries, maxBytes, j) >= Shares(q, |entries| - j)
    decreases j
  {
    hide Remaining, ReadFrom, ReadUpTo, Shares, Budget, Readable;
    if j > 1 {
      var i := j - 1;
      EnoughRemains(t, entries, maxBytes, i, q);
      NeverOverLimit(t, entries, maxBytes, i);
      var r := Remaining(t, entries, maxBytes, i);
      ShareLeavesEnough(r, |entries| - i, q);
      BudgetIsShare(i, |entries|, r, q);
      EntryReads(t, entries, maxBytes, i);
      RemainingStep(t, entries, maxBytes, i);
    }
  }

  /** Fairness: when the newest file leaves at least 4096 bytes for each of the k older files, every older file
      reads at least an equal share of what was left, or all it has unread. */
  lemma OlderFilesShareFairly(t: Tailer, entries: seq<Entry>, maxBytes: nat, j: nat)
    requires 1 <= j < |entries| && DistinctPaths(entries) && Readable(t, entries[j])
    requires Remaining(t, entries, maxBytes, 1) >= 4096 * (|entries| - 1)
    ensures var share := Remaining(t, entries, maxBytes, 1) / (|entries| - 1);
            ReadFrom(t, entries, maxBytes, j) >= Min(Unread(t.files, entries[j]), share)
  {
    var left, k := Remaining(t, entries, maxBytes, 1), |entries| - 1;
    SharesIsProduct(FAIR_FLOOR, k);
    hide Remaining, ReadFrom, ReadUpTo, Shares, Budget, Readable, Unread;
    EqualShareAtLeast(left, k, FAIR_FLOOR);
    EqualShare(left, k);
    var q := left / k;
    EnoughRemains(t, entries, maxBytes, j, q);
    var r := Remaining(t, entries, maxBytes, j);
    EqualShareAtLeast(r, |entries| - j, q);
    BudgetIsShare(j, |entries|, r, q);
    EntryReads(t, entries, maxBytes, j);
  }

  /** What an older file gets of the rest: an equal share among the files left, or 4096
      bytes if that is more and they are still there, unless it has less to read. */
  lemma OlderFileReads(t: Tailer, entries: seq<Entry>, maxBytes: nat, j: nat)
    requires 1 <= j < |entries| && DistinctPaths(entries) && Readable(t, entries[j])
    requires Remaining(t, entries, maxBytes, j) > 0
    ensures var left, unread := Remaining(t, entries, maxBytes, j), Unread(t.files, entries[j]);
            var share, got := left / (|entries| - j), ReadFrom(t, entries, maxBytes, j);
            if unread <= share then got == unread
            else if share >= 4096 then got == share
            else if unread <= 4096 && unread <= left then got == unread
            else got == if left <= 4096 then left else 4096
  {
    hide Remaining, ReadFrom, ReadUpTo, Readable, Unread;
    EntryReads(t, entries, maxBytes, j);
    var left, n := Remaining(t, entries, maxBytes, j), |entries| - j;
    SharesIsProduct(left / n, n);
    EqualShare(left, n);
    assert left / n <= Shares(left / n, n);
  }
}
