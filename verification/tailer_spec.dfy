/** CORRELATOR/log_tailer.cpp as a function of its state: one call reads a budgeted slice of every listed file. */
module TailerSpec {
  import opened Text
  import opened LineSplit

  const FAIR_FLOOR: nat := 4096

  datatype FileState = FileState(lastOffset: nat, safeOffset: nat, pending: string)

  const FRESH := FileState(0, 0, "")

  /** A listed file: its bytes at the time of the call, whether its size could be read,
      and how many bytes an open and read of it will deliver at most. */
  datatype Entry = Entry(path: string, content: string, sized: bool, served: nat)

  datatype Tailer = Tailer(files: map<string, FileState>, bootstrap: bool, bootstrapped: nat,
                           checkpoint: Option<map<string, nat>>)

  /** A tailer after a start: offsets come from the checkpoint; without one, the
      first call skips what is already there. */
  function Start(checkpoint: Option<map<string, nat>>, startAtEnd: bool): Tailer {
    var files := match checkpoint
                 case None => map[]
                 case Some(c) => map p | p in c :: FileState(c[p], c[p], "");
    Tailer(files, startAtEnd && checkpoint.None?, 0, checkpoint)
  }

  function SafeOffsets(files: map<string, FileState>): map<string, nat> {
    map p | p in files :: files[p].safeOffset
  }

  /** `Commit`, when the checkpoint file could be replaced. */
  function Committed(t: Tailer): Tailer { t.(checkpoint := Some(SafeOffsets(t.files))) }

  function Min(a: nat, b: nat): nat { if b < a then b else a }
  function Max(a: nat, b: nat): nat { if a < b then b else a }

  /** A file shorter than what was read of it starts over. */
  function Rewound(f: FileState, content: string): FileState {
    if |content| < f.lastOffset then FRESH else f
  }

  datatype Outcome = Outcome(file: FileState, lines: seq<string>, got: nat)

  /** Reading one file with a byte budget: the new bytes join the pending partial line and are split. */
  function ReadFile(f: FileState, content: string, budget: nat, served: nat): Outcome {
    var g := Rewound(f, content);
    var got := Min(Min(|content| - g.lastOffset, budget), served);
    if got == 0 then Outcome(g, [], 0)
    else
      var buffer := g.pending + content[g.lastOffset..g.lastOffset + got];
      var rest := Unfinished(buffer);
      var last := g.lastOffset + got;
      Outcome(FileState(last, if |rest| <= last then last - |rest| else 0, rest), CompleteLines(buffer), got)
  }

  /** A call under way: what has been read so far. */
  datatype Call = Call(files: map<string, FileState>, bootstrapped: nat, lines: seq<string>, used: nat)

  /** The newest file may take all that remains; each older one a fair share of it, but at least 4096 bytes' worth. */
  function Budget(k: nat, n: nat, remaining: nat): nat
    requires k < n
  {
    if k == 0 then remaining else Min(remaining, Max(remaining / (n - k), FAIR_FLOOR))
  }

  function StateOf(files: map<string, FileState>, path: string): FileState {
    if path in files then files[path] else FRESH
  }

  /** Handling the k-th of n listed files. */
  function ReadEntry(c: Call, e: Entry, bootstrap: bool, k: nat, n: nat, maxBytes: nat): Call
    requires k < n
  {
    if c.used >= maxBytes || !e.sized then c
    else if e.path !in c.files && bootstrap then
      c.(files := c.files[e.path := FileState(|e.content|, |e.content|, "")],
         bootstrapped := c.bootstrapped + |e.content|)
    else
      var r := ReadFile(StateOf(c.files, e.path), e.content, Budget(k, n, maxBytes - c.used), e.served);
      Call(c.files[e.path := r.file], c.bootstrapped, c.lines + r.lines, c.used + r.got)
  }

  /** The call after its first k files. The loop stops reading once the byte limit is reached. */
  function ReadUpTo(t: Tailer, entries: seq<Entry>, maxBytes: nat, k: nat): Call
    requires k <= |entries|
  {
    if k == 0 then Call(t.files, t.bootstrapped, [], 0)
    else ReadEntry(ReadUpTo(t, entries, maxBytes, k - 1), entries[k - 1], t.bootstrap, k - 1, |entries|, maxBytes)
  }

  function Paths(entries: seq<Entry>): set<string> { set e | e in entries :: e.path }

  /** `ReadNewLines` on an existing directory. `saved` says whether the bootstrap checkpoint could be written. */
  function ReadNewLines(t: Tailer, entries: seq<Entry>, maxBytes: nat, saved: bool): (Tailer, seq<string>) {
    if maxBytes == 0 then (t, [])
    else
      var c := ReadUpTo(t, entries, maxBytes, |entries|);
      var checkpoint := if t.bootstrap && saved then Some(SafeOffsets(c.files)) else t.checkpoint;
      (Tailer(map p | p in c.files && p in Paths(entries) :: c.files[p], false, c.bootstrapped, checkpoint), c.lines)
  }
}
