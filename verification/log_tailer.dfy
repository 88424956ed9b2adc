/** CORRELATOR/log_tailer.cpp in its own form: an object whose loops advance file offsets and split buffers. */
module LogTailing {
  import opened Text
  import opened LineSplit
  import opened TailerSpec

  lemma NextLine(lines: seq<string>, text: string)
    ensures var n := LineEnd(text);
            if n == |text| then lines + CompleteLines(text) == lines && Unfinished(text) == text
            else lines + CompleteLines(text) == lines + Cleaned(text[..n]) + CompleteLines(text[n + 1..])
                 && Unfinished(text) == Unfinished(text[n + 1..])
  {
    hide OneLine, Cleaned, CompleteLines, Unfinished, LineEnd;
    LinesOf(text);
    var n := LineEnd(text);
    if n < |text| {
      Regroup(lines, Cleaned(text[..n]), CompleteLines(text[n + 1..]));
    } else {
      assert lines + [] == lines;
    }
  }

  lemma SliceOfRest(buffer: string, start: nat, n: nat)
    requires start + n < |buffer|
    ensures buffer[start..][..n] == buffer[start..start + n] && buffer[start..][n + 1..] == buffer[start + n + 1..]
  {
  }

  class LogTailer {
    var files: map<string, FileState>
    var bootstrapPending: bool
    var bootstrappedBytes: nat
    /** What the checkpoint file holds; none before the first save. */
    var checkpoint: Option<map<string, nat>>

    ghost function Contents(): Tailer
      reads this
    {
      Tailer(files, bootstrapPending, bootstrappedBytes, checkpoint)
    }

    constructor (checkpoint: Option<map<string, nat>>, startAtEnd: bool)
      ensures Contents() == Start(checkpoint, startAtEnd)
    {
      this.checkpoint := checkpoint;
      files := match checkpoint
               case None => map[]
               case Some(c) => map p | p in c :: FileState(c[p], c[p], "");
      bootstrapPending := startAtEnd && checkpoint.None?;
      bootstrappedBytes := 0;
    }

    /** The line loop over one buffer. */
    method SplitBuffer(buffer: string) returns (lines: seq<string>, pending: string)
      ensures lines == CompleteLines(buffer) && pending == Unfinished(buffer)
    {
      hide Cleaned, LineEnd, OneLine, CompleteLines, Unfinished;
      lines := [];
      var start := 0;
      ghost var text := buffer;
      assert [] + CompleteLines(buffer) == CompleteLines(buffer);
      while true
        invariant start <= |buffer| && text == buffer[start..]
        invariant CompleteLines(buffer) == lines + CompleteLines(text) && Unfinished(buffer) == Unfinished(text)
        decreases |buffer| - start
      {
        NextLine(lines, text);
        var newline := start + LineEnd(buffer[start..]);
        if newline == |buffer| { return lines, buffer[start..]; }
        SliceOfRest(buffer, start, newline - start);
        lines := lines + WithoutReturn(buffer[start..newline]);
        text := text[newline - start + 1..];
        start := newline + 1;
      }
    }

    /** The line without its carriage return, if anything is left of it. */
    static function WithoutReturn(line: string): (kept: seq<string>)
      ensures kept == Cleaned(line)
    {
      var bare := if line != "" && line[|line| - 1] == '\r' then line[..|line| - 1] else line;
      if bare == "" then [] else [bare]
    }

    /** Reading one tracked or new file within its budget. */
    method ReadStream(path: string, content: string, budget: nat, served: nat) returns (lines: seq<string>, got: nat)
      modifies this`files
      ensures var r := ReadFile(StateOf(old(files), path), content, budget, served);
              lines == r.lines && got == r.got && files == old(files)[path := r.file]
    {
      hide CompleteLines, Unfinished;
      ghost var r := ReadFile(StateOf(files, path), content, budget, served);
      var state := StateOf(files, path);
      if |content| < state.lastOffset { state := FRESH; }
      files := files[path := state];
      lines := [];
      got := Min(Min(|content| - state.lastOffset, budget), served);
      if got == 0 {
        assert r == Outcome(state, [], 0);
        return;
      }
      var chunk := content[state.lastOffset..state.lastOffset + got];
      var pending;
      lines, pending := SplitBuffer(state.pending + chunk);
      var last := state.lastOffset + got;
      state := FileState(last, if |pending| <= last then last - |pending| else 0, pending);
      assert r == Outcome(state, lines, got);
      files := files[path := state];
    }

    /** One listed file of a call. */
    method ReadListed(e: Entry, k: nat, n: nat, maxBytes: nat, lines: seq<string>, used: nat)
      returns (lines': seq<string>, used': nat)
      requires k < n && used < maxBytes
      modifies this`files, this`bootstrappedBytes
      ensures Call(files, bootstrappedBytes, lines', used')
           == ReadEntry(Call(old(files), old(bootstrappedBytes), lines, used), e, bootstrapPending, k, n, maxBytes)
    {
      hide ReadFile, Budget;
      lines', used' := lines, used;
      if !e.sized { return; }
      if e.path !in files && bootstrapPending {
        files := files[e.path := FileState(|e.content|, |e.content|, "")];
        bootstrappedBytes := bootstrappedBytes + |e.content|;
        return;
      }
      var more, got := ReadStream(e.path, e.content, Budget(k, n, maxBytes - used), e.served);
      lines', used' := lines + more, used + got;
    }

    /** `ReadNewLines` over a listing in newest-first order. */
    method ReadNewLines(entries: seq<Entry>, maxBytes: nat, saved: bool) returns (lines: seq<string>)
      modifies this
      ensures (Contents(), lines) == TailerSpec.ReadNewLines(old(Contents()), entries, maxBytes, saved)
    {
      hide ReadEntry;
      lines := [];
      if maxBytes == 0 { return; }
      var used: nat := 0;
      var k := 0;
      ghost var t := Contents();
      while k < |entries| && used < maxBytes
        invariant 0 <= k <= |entries|
        invariant Call(files, bootstrappedBytes, lines, used) == ReadUpTo(t, entries, maxBytes, k)
        invariant bootstrapPending == t.bootstrap && checkpoint == t.checkpoint
      {
        lines, used := ReadListed(entries[k], k, |entries|, maxBytes, lines, used);
        k := k + 1;
      }
      if used >= maxBytes { StopsReading(t, entries, maxBytes, k, |entries|); }
      if bootstrapPending {
        bootstrapPending := false;
        if saved { checkpoint := Some(SafeOffsets(files)); }
      }
      files := map p | p in files && p in Paths(entries) :: files[p];
    }

    lemma {:induction false} StopsReading(t: Tailer, entries: seq<Entry>, maxBytes: nat, k: nat, n: nat)
      requires k <= n <= |entries| && ReadUpTo(t, entries, maxBytes, k).used >= maxBytes
      ensures ReadUpTo(t, entries, maxBytes, n) == ReadUpTo(t, entries, maxBytes, k)
      decreases n
    {
      if k < n { StopsReading(t, entries, maxBytes, k, n - 1); }
    }

    /** `Commit`. When the checkpoint file cannot be replaced, it keeps what it held. */
    method Commit(saved: bool)
      modifies this`checkpoint
      ensures Contents() == if saved then Committed(old(Contents())) else old(Contents())
    {
      if saved { checkpoint := Some(SafeOffsets(files)); }
    }
  }
}
