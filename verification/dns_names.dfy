/** `ReadDnsName` in NETOWRK ENDPOINT/protocol_decoder.cpp, against the wire layout of names
    (sections 3.1 and 4.1.4 of RFC 1035). */
module DnsNames {
  import opened Text

  type Byte = b: nat | b < 256

  const MAX_STEPS: nat := 128
  const MAX_NAME: nat := 253
  const MAX_LABEL: nat := 63

  // ---------------------------------------------------------------- the wire layout

  predicate IsPointer(b: Byte) { b >= 0xC0 }

  function Target(b: Byte, c: Byte): nat { b % 64 * 256 + c }

  /** A name laid out at `at`: its labels, the number of pointers followed, and the bytes it takes up at `at`,
      which end with the first pointer or the terminating zero. */
  ghost predicate NameAt(data: seq<Byte>, at: nat, labels: seq<seq<Byte>>, hops: nat, width: nat)
    decreases |labels| + hops
  {
    && at < |data|
    && if IsPointer(data[at]) then
         && width == 2 && at + 1 < |data| && hops > 0
         && var target, fewer := Target(data[at], data[at + 1]), hops - 1;
            exists w :: NameAt(data, target, labels, fewer, w)
       else if labels == [] then
         data[at] == 0 && hops == 0 && width == 1
       else
         var n := |labels[0]|;
         && 1 <= n <= 63 && data[at] == n && at + 1 + n <= |data| && data[at + 1..at + 1 + n] == labels[0]
         && width > 1 + n && NameAt(data, at + 1 + n, labels[1..], hops, width - 1 - n)
  }

  predicate IsPrintable(b: Byte) { 0x21 <= b <= 0x7E }

  predicate Printable(part: seq<Byte>) { forall i :: 0 <= i < |part| ==> IsPrintable(part[i]) }

  predicate AllPrintable(labels: seq<seq<Byte>>) { forall i :: 0 <= i < |labels| ==> Printable(labels[i]) }

  function LabelText(part: seq<Byte>): (r: string)
    ensures |r| == |part| && forall i :: 0 <= i < |r| ==> r[i] as nat == part[i]
  {
    seq(|part|, i requires 0 <= i < |part| => part[i] as char)
  }

  function LabelTexts(labels: seq<seq<Byte>>): (r: seq<string>)
    ensures |r| == |labels| && forall i :: 0 <= i < |r| ==> r[i] == LabelText(labels[i])
  {
    seq(|labels|, i requires 0 <= i < |labels| => LabelText(labels[i]))
  }

  /** The labels joined with dots. */
  function Dotted(labels: seq<seq<Byte>>): string { Join(LabelTexts(labels), ".") }

  /** What the reader accepts. */
  predicate Acceptable(labels: seq<seq<Byte>>, hops: nat) {
    AllPrintable(labels) && |Dotted(labels)| <= 253 && |labels| + hops + 1 <= 128
  }

  // ---------------------------------------------------------------- the reader

  function AddLabel(name: string, part: seq<Byte>): string {
    (if name == "" then "" else name + ".") + LabelText(part)
  }

  datatype Name = Name(text: string, width: nat)

  /** The walk from `cursor` with the text read so far, `steps` of the budget being used up. */
  function Walk(data: seq<Byte>, cursor: nat, name: string, steps: nat): Option<Name>
    decreases MAX_STEPS - steps
  {
    if steps >= MAX_STEPS || cursor >= |data| then None
    else if IsPointer(data[cursor]) then
      if cursor + 2 > |data| then None
      else
        match Walk(data, Target(data[cursor], data[cursor + 1]), name, steps + 1)
        case None => None
        case Some(r) => Some(Name(r.text, 2))
    else if data[cursor] == 0 then Some(Name(name, 1))
    else
      var n := data[cursor];
      if n > MAX_LABEL || cursor + 1 + n > |data| || !Printable(data[cursor + 1..cursor + 1 + n])
         || |AddLabel(name, data[cursor + 1..cursor + 1 + n])| > MAX_NAME
      then None
      else
        match Walk(data, cursor + 1 + n, AddLabel(name, data[cursor + 1..cursor + 1 + n]), steps + 1)
        case None => None
        case Some(r) => Some(Name(r.text, 1 + n + r.width))
  }

  function ReadName(data: seq<Byte>, offset: nat): Option<Name> { Walk(data, offset, "", 0) }

  // ---------------------------------------------------------------- text of the labels

  function DottedFrom(name: string, labels: seq<seq<Byte>>): string
    decreases |labels|
  {
    if labels == [] then name else DottedFrom(AddLabel(name, labels[0]), labels[1..])
  }

  lemma {:induction false} DottedFromGrows(name: string, labels: seq<seq<Byte>>)
    ensures |DottedFrom(name, labels)| >= |name|
    decreases |labels|
  {
    if labels != [] { DottedFromGrows(AddLabel(name, labels[0]), labels[1..]); }
  }

  predicate NoEmptyLabel(labels: seq<seq<Byte>>) { forall i :: 0 <= i < |labels| ==> labels[i] != [] }

  lemma LabelTextsSnoc(labels: seq<seq<Byte>>, part: seq<Byte>)
    ensures LabelTexts(labels + [part]) == LabelTexts(labels) + [LabelText(part)]
  {
  }

  lemma DottedSnoc(labels: seq<seq<Byte>>, part: seq<Byte>)
    requires NoEmptyLabel(labels)
    ensures Dotted(labels + [part]) == AddLabel(Dotted(labels), part)
  {
    LabelTextsSnoc(labels, part);
    var texts := LabelTexts(labels);
    assert (texts + [LabelText(part)])[..|texts|] == texts;
    if labels == [] {
      assert "" + LabelText(part) == LabelText(part);
    } else {
      DottedNotEmpty(labels);
    }
  }

  lemma DottedNotEmpty(labels: seq<seq<Byte>>)
    requires NoEmptyLabel(labels) && labels != []
    ensures Dotted(labels) != ""
  {
    var texts := LabelTexts(labels);
    assert |texts[|texts| - 1]| == |labels[|labels| - 1]|;
  }

  lemma {:induction false} DottedFromIs(done: seq<seq<Byte>>, labels: seq<seq<Byte>>)
    requires NoEmptyLabel(done) && NoEmptyLabel(labels)
    ensures DottedFrom(Dotted(done), labels) == Dotted(done + labels)
    decreases |labels|
  {
    hide Dotted, AddLabel;
    if labels == [] {
      assert done + labels == done;
    } else {
      DottedSnoc(done, labels[0]);
      DottedFromIs(done + [labels[0]], labels[1..]);
      assert done + [labels[0]] + labels[1..] == done + labels;
    }
  }

  lemma DottedWhole(labels: seq<seq<Byte>>)
    requires NoEmptyLabel(labels)
    ensures DottedFrom("", labels) == Dotted(labels)
  {
    DottedFromIs([], labels);
    assert [] + labels == labels;
  }

  lemma {:induction false} LaidLabels(data: seq<Byte>, at: nat, labels: seq<seq<Byte>>, hops: nat, width: nat)
    requires NameAt(data, at, labels, hops, width)
    ensures NoEmptyLabel(labels)
    decreases |labels| + hops
  {
    if IsPointer(data[at]) {
      var w :| NameAt(data, Target(data[at], data[at + 1]), labels, hops - 1, w);
      LaidLabels(data, Target(data[at], data[at + 1]), labels, hops - 1, w);
    } else if labels != [] {
      LaidLabels(data, at + 1 + |labels[0]|, labels[1..], hops, width - 1 - |labels[0]|);
      assert forall i :: 1 <= i < |labels| ==> labels[i] == labels[1..][i - 1];
    }
  }

  // ---------------------------------------------------------------- the reader reads exactly the acceptable names

  predicate FitsFrom(name: string, labels: seq<seq<Byte>>, hops: nat, steps: nat) {
    AllPrintable(labels) && |DottedFrom(name, labels)| <= MAX_NAME && steps + |labels| + hops + 1 <= MAX_STEPS
  }

  lemma {:induction false} LaidIsWalked(data: seq<Byte>, at: nat, labels: seq<seq<Byte>>, hops: nat, width: nat,
                                        name: string, steps: nat)
    requires NameAt(data, at, labels, hops, width) && FitsFrom(name, labels, hops, steps)
    ensures Walk(data, at, name, steps) == Some(Name(DottedFrom(name, labels), width))
    decreases |labels| + hops
  {
    hide AddLabel;
    if IsPointer(data[at]) {
      var w :| NameAt(data, Target(data[at], data[at + 1]), labels, hops - 1, w);
      LaidIsWalked(data, Target(data[at], data[at + 1]), labels, hops - 1, w, name, steps + 1);
    } else if labels != [] {
      LabelIsWalked(data, at, labels, hops, width, name, steps);
    }
  }

  lemma {:induction false} LabelIsWalked(data: seq<Byte>, at: nat, labels: seq<seq<Byte>>, hops: nat, width: nat,
                                         name: string, steps: nat)
    requires NameAt(data, at, labels, hops, width) && FitsFrom(name, labels, hops, steps)
    requires !IsPointer(data[at]) && labels != []
    ensures Walk(data, at, name, steps) == Some(Name(DottedFrom(name, labels), width))
    decreases |labels| + hops, 0
  {
    hide AddLabel, Printable;
    var n := |labels[0]|;
    var name' := AddLabel(name, labels[0]);
    DottedFromGrows(name', labels[1..]);
    TailPrintable(labels);
    LaidIsWalked(data, at + 1 + n, labels[1..], hops, width - 1 - n, name', steps + 1);
  }

  lemma TailPrintable(labels: seq<seq<Byte>>)
    requires AllPrintable(labels) && labels != []
    ensures Printable(labels[0]) && AllPrintable(labels[1..])
  {
    hide Printable;
  }

  lemma ConsPrintable(part: seq<Byte>, labels: seq<seq<Byte>>)
    requires Printable(part) && AllPrintable(labels)
    ensures AllPrintable([part] + labels)
  {
    hide Printable;
  }

  lemma {:induction false} WalkedIsLaid(data: seq<Byte>, at: nat, name: string, steps: nat)
    returns (labels: seq<seq<Byte>>, hops: nat, width: nat)
    requires Walk(data, at, name, steps).Some? && |name| <= MAX_NAME
    ensures NameAt(data, at, labels, hops, width) && FitsFrom(name, labels, hops, steps)
    decreases MAX_STEPS - steps
  {
    hide AddLabel, Printable, FitsFrom, NameAt;
    if IsPointer(data[at]) {
      var w;
      labels, hops, w := WalkedIsLaid(data, Target(data[at], data[at + 1]), name, steps + 1);
      hops, width := hops + 1, 2;
      PointerLaid(data, at, labels, hops, w, name, steps);
    } else if data[at] == 0 {
      labels, hops, width := [], 0, 1;
      EndLaid(data, at, name, steps);
    } else {
      var n := data[at];
      var part := data[at + 1..at + 1 + n];
      var rest, w;
      rest, hops, w := WalkedIsLaid(data, at + 1 + n, AddLabel(name, part), steps + 1);
      labels, width := [part] + rest, 1 + n + w;
      LabelLaid(data, at, part, rest, hops, w, name, steps);
    }
  }

  lemma PointerLaid(data: seq<Byte>, at: nat, labels: seq<seq<Byte>>, hops: nat, w: nat, name: string, steps: nat)
    requires at + 1 < |data| && IsPointer(data[at]) && hops > 0
    requires NameAt(data, Target(data[at], data[at + 1]), labels, hops - 1, w)
             && FitsFrom(name, labels, hops - 1, steps + 1)
    ensures NameAt(data, at, labels, hops, 2) && FitsFrom(name, labels, hops, steps)
  {
    hide DottedFrom, AllPrintable;
  }

  lemma EndLaid(data: seq<Byte>, at: nat, name: string, steps: nat)
    requires at < |data| && data[at] == 0 && |name| <= MAX_NAME && steps < MAX_STEPS
    ensures NameAt(data, at, [], 0, 1) && FitsFrom(name, [], 0, steps)
  {
  }

  lemma LabelLaid(data: seq<Byte>, at: nat, part: seq<Byte>, rest: seq<seq<Byte>>, hops: nat, w: nat, name: string,
                  steps: nat)
    requires at < |data| && 1 <= |part| <= MAX_LABEL && data[at] == |part| && at + 1 + |part| <= |data|
    requires data[at + 1..at + 1 + |part|] == part && Printable(part)
    requires NameAt(data, at + 1 + |part|, rest, hops, w) && FitsFrom(AddLabel(name, part), rest, hops, steps + 1)
    ensures NameAt(data, at, [part] + rest, hops, 1 + |part| + w) && FitsFrom(name, [part] + rest, hops, steps)
  {
    hide AddLabel, Printable;
    assert ([part] + rest)[1..] == rest;
    ConsPrintable(part, rest);
    WidthPositive(data, at + 1 + |part|, rest, hops, w);
  }

  lemma WidthPositive(data: seq<Byte>, at: nat, labels: seq<seq<Byte>>, hops: nat, width: nat)
    requires NameAt(data, at, labels, hops, width)
    ensures width >= 1 && at < |data|
  {
  }

  lemma FitsIsAcceptable(labels: seq<seq<Byte>>, hops: nat)
    requires NoEmptyLabel(labels)
    ensures FitsFrom("", labels, hops, 0) <==> Acceptable(labels, hops)
  {
    hide AllPrintable, Dotted, DottedFrom;
    DottedWhole(labels);
  }

  /** On every layout: an acceptable name is read as its dotted labels, its width ending with the first pointer. */
  lemma LaidNameIsRead(data: seq<Byte>, at: nat, labels: seq<seq<Byte>>, hops: nat, width: nat)
    requires NameAt(data, at, labels, hops, width) && Acceptable(labels, hops)
    ensures ReadName(data, at) == Some(Name(Dotted(labels), width))
  {
    hide NameAt, FitsFrom, Walk, DottedFrom, Dotted;
    LaidLabels(data, at, labels, hops, width);
    FitsIsAcceptable(labels, hops);
    DottedWhole(labels);
    LaidIsWalked(data, at, labels, hops, width, "", 0);
  }

  /** Conversely, whatever is read is an acceptable name laid out there. */
  lemma ReadNameIsLaid(data: seq<Byte>, at: nat) returns (labels: seq<seq<Byte>>, hops: nat, width: nat)
    requires ReadName(data, at).Some?
    ensures NameAt(data, at, labels, hops, width) && Acceptable(labels, hops)
    ensures ReadName(data, at) == Some(Name(Dotted(labels), width))
  {
    hide NameAt, FitsFrom, Walk, DottedFrom, Dotted;
    labels, hops, width := WalkedIsLaid(data, at, "", 0);
    LaidLabels(data, at, labels, hops, width);
    FitsIsAcceptable(labels, hops);
    LaidNameIsRead(data, at, labels, hops, width);
  }

  // ---------------------------------------------------------------- names without pointers

  lemma {:induction false} DottedLength(labels: seq<seq<Byte>>)
    requires NoEmptyLabel(labels) && labels != []
    ensures |Dotted(labels)| >= 2 * |labels| - 1
  {
    var front, last := labels[..|labels| - 1], labels[|labels| - 1];
    assert labels == front + [last] && NoEmptyLabel(front);
    DottedSnoc(front, last);
    if front != [] {
      DottedLength(front);
    }
  }

  /** The step budget never rejects a printable name without pointers whose dotted form fits. */
  lemma UncompressedIsAcceptable(labels: seq<seq<Byte>>)
    requires NoEmptyLabel(labels) && AllPrintable(labels) && |Dotted(labels)| <= 253
    ensures Acceptable(labels, 0)
  {
    hide AllPrintable, Dotted;
    if labels != [] { DottedLength(labels); }
  }

  function EncodeName(labels: seq<seq<Byte>>): seq<Byte>
    requires forall i :: 0 <= i < |labels| ==> 1 <= |labels[i]| <= 63
  {
    if labels == [] then [0] else [|labels[0]|] + labels[0] + EncodeName(labels[1..])
  }

  lemma {:induction false} EncodedNameIsLaid(before: seq<Byte>, labels: seq<seq<Byte>>, after: seq<Byte>)
    requires forall i :: 0 <= i < |labels| ==> 1 <= |labels[i]| <= 63
    ensures NameAt(before + EncodeName(labels) + after, |before|, labels, 0, |EncodeName(labels)|)
    decreases |labels|
  {
    var data := before + EncodeName(labels) + after;
    if labels == [] {
      assert data[|before|] == 0;
    } else {
      var head: seq<Byte> := [|labels[0]|] + labels[0];
      EncodedNameIsLaid(before + head, labels[1..], after);
      var rest := EncodeName(labels[1..]);
      HeadLaid(before, labels[0], rest, after);
      WidthPositive(data, |before| + |head|, labels[1..], 0, |rest|);
    }
  }

  lemma HeadLaid(before: seq<Byte>, part: seq<Byte>, rest: seq<Byte>, after: seq<Byte>)
    requires |part| < 256
    ensures var head: seq<Byte> := [|part|] + part;
            var data := before + (head + rest) + after;
            && data == before + head + rest + after
            && |data| >= |before| + 1 + |part| && data[|before|] == |part|
            && data[|before| + 1..|before| + 1 + |part|] == part
  {
  }

  /** Round trip: every printable name whose dotted form fits is read back from its encoding, wherever it stands. */
  lemma EncodedNameReadsBack(before: seq<Byte>, labels: seq<seq<Byte>>, after: seq<Byte>)
    requires forall i :: 0 <= i < |labels| ==> 1 <= |labels[i]| <= 63
    requires AllPrintable(labels) && |Dotted(labels)| <= 253
    ensures ReadName(before + EncodeName(labels) + after, |before|) == Some(Name(Dotted(labels), |EncodeName(labels)|))
  {
    hide AllPrintable, Dotted, EncodeName, ReadName;
    EncodedNameIsLaid(before, labels, after);
    UncompressedIsAcceptable(labels);
    LaidNameIsRead(before + EncodeName(labels) + after, |before|, labels, 0, |EncodeName(labels)|);
  }

  // ---------------------------------------------------------------- names behind a length prefix (TCP)

  /** A name without pointers is the same name when bytes are put in front of the message. */
  lemma {:induction false} FramedName(before: seq<Byte>, data: seq<Byte>, at: nat, labels: seq<seq<Byte>>, width: nat)
    requires NameAt(data, at, labels, 0, width)
    ensures NameAt(before + data, |before| + at, labels, 0, width)
    decreases |labels|
  {
    assert (before + data)[|before| + at] == data[at];
    if labels != [] {
      var n := |labels[0]|;
      assert (before + data)[|before| + at + 1..|before| + at + 1 + n] == data[at + 1..at + 1 + n];
      FramedName(before, data, at + 1 + n, labels[1..], width - 1 - n);
    }
  }

  // ---------------------------------------------------------------- ReadDnsName

  /** The label characters, added one by one; `None` at the first that is not printable. */
  method AppendLabel(data: seq<Byte>, cursor: nat, n: nat, name: string) returns (r: Option<string>)
    requires n > 0 && cursor + 1 + n <= |data|
    ensures var part := data[cursor + 1..cursor + 1 + n];
            r == if Printable(part) then Some(AddLabel(name, part)) else None
  {
    ghost var part := data[cursor + 1..cursor + 1 + n];
    var text := name;
    if text != "" { text := text + "."; }
    ghost var start := text;
    var index := 0;
    while index < n
      invariant 0 <= index <= n && Printable(part[..index])
      invariant text == start + LabelText(part)[..index]
    {
      var character := data[cursor + 1 + index];
      assert part[index] == character;
      if character < 0x21 || character > 0x7E { return None; }
      assert part[..index + 1] == part[..index] + [character];
      assert LabelText(part)[..index + 1] == LabelText(part)[..index] + [character as char];
      text := text + [character as char];
      index := index + 1;
    }
    assert part[..n] == part && LabelText(part)[..n] == LabelText(part);
    return Some(text);
  }

  /** What remains to be read decides the result. */
  ghost predicate Ahead(data: seq<Byte>, offset: nat, cursor: nat, name: string, steps: nat, jumped: bool,
                        consumed: nat) {
    match Walk(data, cursor, name, steps)
    case None => ReadName(data, offset) == None
    case Some(r) => (jumped || cursor >= offset)
                    && ReadName(data, offset)
                       == Some(Name(r.text, if jumped then consumed else cursor - offset + r.width))
  }

  lemma AheadPointer(data: seq<Byte>, offset: nat, cursor: nat, name: string, steps: nat, jumped: bool, consumed: nat)
    requires Ahead(data, offset, cursor, name, steps, jumped, consumed) && (jumped || cursor >= offset)
    requires steps < MAX_STEPS && cursor + 2 <= |data| && IsPointer(data[cursor])
    ensures Ahead(data, offset, Target(data[cursor], data[cursor + 1]), name, steps + 1, true,
                  if jumped then consumed else cursor + 2 - offset)
  {
    hide ReadName;
  }

  lemma AheadLabel(data: seq<Byte>, offset: nat, cursor: nat, name: string, steps: nat, jumped: bool, consumed: nat)
    requires Ahead(data, offset, cursor, name, steps, jumped, consumed) && (jumped || cursor >= offset)
    requires steps < MAX_STEPS && cursor < |data| && 1 <= data[cursor] <= MAX_LABEL
    requires var n := data[cursor];
             cursor + 1 + n <= |data| && Printable(data[cursor + 1..cursor + 1 + n])
             && |AddLabel(name, data[cursor + 1..cursor + 1 + n])| <= MAX_NAME
    ensures var n := data[cursor];
            Ahead(data, offset, cursor + 1 + n, AddLabel(name, data[cursor + 1..cursor + 1 + n]), steps + 1, jumped,
                  consumed)
  {
    hide ReadName, Printable, AddLabel;
  }

  method ReadDnsName(data: seq<Byte>, offset: nat) returns (ok: bool, name: string, consumed: nat)
    ensures ReadName(data, offset) == if ok then Some(Name(name, consumed)) else None
  {
    hide ReadName, Ahead, Printable, AddLabel;
    name, consumed := "", 0;
    var cursor: nat, jumped, steps := offset, false, 0;
    assert Ahead(data, offset, cursor, name, steps, jumped, consumed) by { AheadStart(data, offset); }
    while steps < 128
      invariant steps <= MAX_STEPS && (jumped || cursor >= offset)
      invariant Ahead(data, offset, cursor, name, steps, jumped, consumed)
      decreases MAX_STEPS - steps
    {
      AheadEnds(data, offset, cursor, name, steps, jumped, consumed);
      if cursor >= |data| { return false, name, consumed; }
      var n := data[cursor];
      if n >= 0xC0 {
        if cursor + 2 > |data| { return false, name, consumed; }
        AheadPointer(data, offset, cursor, name, steps, jumped, consumed);
        if !jumped { consumed := cursor + 2 - offset; }
        jumped := true;
        cursor := Target(data[cursor], data[cursor + 1]);
      } else {
        if n == 0 {
          if !jumped { consumed := cursor + 1 - offset; }
          return true, name, consumed;
        }
        if n > 63 || cursor + 1 + n > |data| { return false, name, consumed; }
        var longer := AppendLabel(data, cursor, n, name);
        if longer == None || |longer.value| > 253 { return false, name, consumed; }
        AheadLabel(data, offset, cursor, name, steps, jumped, consumed);
        name := longer.value;
        cursor := cursor + 1 + n;
      }
      steps := steps + 1;
    }
    AheadEnds(data, offset, cursor, name, steps, jumped, consumed);
    return false, name, consumed;
  }

  lemma AheadStart(data: seq<Byte>, offset: nat)
    ensures Ahead(data, offset, offset, "", 0, false, 0)
  {
  }

  /** Where the loop returns. */
  lemma AheadEnds(data: seq<Byte>, offset: nat, cursor: nat, name: string, steps: nat, jumped: bool, consumed: nat)
    requires Ahead(data, offset, cursor, name, steps, jumped, consumed) && (jumped || cursor >= offset)
    ensures steps >= MAX_STEPS || cursor >= |data| ==> ReadName(data, offset) == None
    ensures steps < MAX_STEPS && cursor < |data| ==>
              var n := data[cursor];
              && (IsPointer(n) && cursor + 2 > |data| ==> ReadName(data, offset) == None)
              && (n == 0 ==>
                    ReadName(data, offset) == Some(Name(name, if jumped then consumed else cursor + 1 - offset)))
              && (!IsPointer(n) && (n > MAX_LABEL || cursor + 1 + n > |data|) ==> ReadName(data, offset) == None)
              && (1 <= n <= MAX_LABEL && cursor + 1 + n <= |data| ==>
                    !Printable(data[cursor + 1..cursor + 1 + n])
                      || |AddLabel(name, data[cursor + 1..cursor + 1 + n])| > MAX_NAME
                    ==> ReadName(data, offset) == None)
  {
    hide ReadName, Printable, AddLabel;
  }
}
