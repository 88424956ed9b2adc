/** DNS over TCP: a message behind its two-byte length. `ReadDnsName` counts pointers from the start of the buffer, so a
    framed response decodes like the unframed one when its names have no pointers, and otherwise it may not. */
module DnsFraming {
  import opened Text
  import opened DnsNames
  import opened DnsMessages

  function Framed(message: seq<Byte>): seq<Byte>
    requires |message| < 65536
  {
    [|message| / 256, |message| % 256] + message
  }

  predicate Uncompressed(qs: seq<WireName>, rrs: seq<RR>) {
    && (forall i :: 0 <= i < |qs| ==> qs[i].hops == 0)
    && forall i :: 0 <= i < |rrs| ==> PlainRR(rrs[i])
  }

  predicate PlainRR(rr: RR) { rr.owner.hops == 0 && (rr.rtype == 5 ==> rr.target.hops == 0) }

  lemma FramedWord(m: seq<Byte>, at: nat)
    requires |m| < 65536 && at + 2 <= |m|
    ensures Word16(Framed(m), at + 2) == Word16(m, at)
  {
    assert Framed(m)[at + 2] == m[at] && Framed(m)[at + 3] == m[at + 1];
  }

  lemma FramedLength(m: seq<Byte>)
    requires |m| < 65536
    ensures |Framed(m)| == |m| + 2 && Word16(Framed(m), 0) == |m|
  {
    assert Framed(m)[0] == |m| / 256 && Framed(m)[1] == |m| % 256;
  }

  lemma FramedStands(m: seq<Byte>, at: nat, n: WireName)
    requires |m| < 65536 && Stands(m, at, n) && n.hops == 0
    ensures Stands(Framed(m), at + 2, n)
  {
    hide Acceptable;
    FramedName([|m| / 256, |m| % 256], m, at, n.labels, n.width);
  }

  lemma FramedRR(m: seq<Byte>, at: nat, rr: RR)
    requires |m| < 65536 && RRAt(m, at, rr) && PlainRR(rr)
    ensures RRAt(Framed(m), at + 2, rr)
  {
    hide Stands, Word16;
    var w := at + rr.owner.width;
    FramedStands(m, at, rr.owner);
    FramedLength(m);
    FramedWord(m, w);
    FramedWord(m, w + 8);
    if rr.rtype == 5 { FramedStands(m, w + 10, rr.target); }
    assert Framed(m)[w + 12..End(at + 2, rr)] == m[w + 10..End(at, rr)];
  }

  lemma {:induction false} FramedRRs(m: seq<Byte>, at: nat, rrs: seq<RR>)
    requires |m| < 65536 && RRsAt(m, at, rrs) && forall i :: 0 <= i < |rrs| ==> PlainRR(rrs[i])
    ensures RRsAt(Framed(m), at + 2, rrs)
    decreases |rrs|
  {
    hide RRAt, PlainRR, Framed;
    if rrs != [] {
      FramedRR(m, at, rrs[0]);
      FramedRRs(m, End(at, rrs[0]), rrs[1..]);
    }
  }

  lemma {:induction false} FramedQuestions(m: seq<Byte>, at: nat, qs: seq<WireName>)
    requires |m| < 65536 && QuestionsAt(m, at, qs) && forall i :: 0 <= i < |qs| ==> qs[i].hops == 0
    ensures QuestionsAt(Framed(m), at + 2, qs) && QuestionsEnd(at + 2, qs) == QuestionsEnd(at, qs) + 2
    decreases |qs|
  {
    hide Stands;
    FramedLength(m);
    hide Framed;
    if qs != [] {
      FramedStands(m, at, qs[0]);
      FramedQuestions(m, at + qs[0].width + 4, qs[1..]);
    }
  }

  /** A laid-out response all of whose names have no pointers decodes the same framed and unframed. */
  lemma UncompressedIsFramed(m: seq<Byte>, qs: seq<WireName>, rrs: seq<RR>)
    requires |m| < 65536 && ResponseAt(m, false, qs, rrs) && Uncompressed(qs, rrs)
    ensures ResponseAt(Framed(m), true, qs, rrs) && Answers(Framed(m), true) == Answers(m, false)
  {
    hide QuestionsAt, RRsAt, PlainRR, Answers, AllSay, Shown, Word16, Framed;
    FramedLength(m);
    FramedWord(m, 2);
    FramedWord(m, 4);
    FramedWord(m, 6);
    FramedQuestions(m, 12, qs);
    FramedRRs(m, QuestionsEnd(12, qs), rrs);
    ResponseReadsBack(m, false, qs, rrs);
    ResponseReadsBack(Framed(m), true, qs, rrs);
  }

  // ---------------------------------------------------------------- a name with a pointer over TCP

  /** Labels laid out one after the other from `at` to `end`. */
  ghost predicate LabelsUpTo(data: seq<Byte>, at: nat, own: seq<seq<Byte>>, end: nat)
    decreases |own|
  {
    if own == [] then at == end
    else
      var n := |own[0]|;
      && 1 <= n <= MAX_LABEL && at + 1 + n <= |data| && data[at] == n && data[at + 1..at + 1 + n] == own[0]
      && LabelsUpTo(data, at + 1 + n, own[1..], end)
  }

  predicate PointsTo(data: seq<Byte>, end: nat, target: nat) {
    end + 1 < |data| && IsPointer(data[end]) && Target(data[end], data[end + 1]) == target
  }

  ghost predicate IsLaid(data: seq<Byte>, at: nat, labels: seq<seq<Byte>>, hops: nat) {
    exists w :: NameAt(data, at, labels, hops, w)
  }

  /** A name without pointers stands two bytes in front of the target. */
  ghost predicate StandsEarly(m: seq<Byte>, target: nat, early: seq<seq<Byte>>) {
    target >= 2 && IsLaid(m, target - 2, early, 0)
  }

  /** A name with a pointer is its own labels, the pointer, and what is laid out at the target. */
  lemma {:induction false} SplitAtPointer(data: seq<Byte>, at: nat, labels: seq<seq<Byte>>, hops: nat, width: nat)
    returns (own: seq<seq<Byte>>, end: nat, target: nat, rest: seq<seq<Byte>>, w: nat)
    requires NameAt(data, at, labels, hops, width) && hops > 0
    ensures LabelsUpTo(data, at, own, end) && PointsTo(data, end, target) && width == end + 2 - at
    ensures labels == own + rest && NameAt(data, target, rest, hops - 1, w)
    decreases |labels|
  {
    hide NameAt, LabelsUpTo, PointsTo;
    if StartsWithLabel(data, at, labels) {
      var n := |labels[0]|;
      LabelFirst(data, at, labels, hops, width);
      var more;
      more, end, target, rest, w := SplitAtPointer(data, at + 1 + n, labels[1..], hops, width - 1 - n);
      own := [labels[0]] + more;
      MoreLabels(data, at, labels[0], more, end);
      assert own + rest == [labels[0]] + (more + rest);
    } else {
      own, end, rest := [], at, labels;
      target, w := PointerFirst(data, at, labels, hops, width);
      assert LabelsUpTo(data, at, [], at) by { NoLabels(data, at); }
      assert labels == [] + labels;
    }
  }

  predicate StartsWithLabel(data: seq<Byte>, at: nat, labels: seq<seq<Byte>>) {
    && labels != [] && 1 <= |labels[0]| <= MAX_LABEL && at + 1 + |labels[0]| <= |data| && data[at] == |labels[0]|
    && data[at + 1..at + 1 + |labels[0]|] == labels[0]
  }

  lemma LabelFirst(data: seq<Byte>, at: nat, labels: seq<seq<Byte>>, hops: nat, width: nat)
    requires NameAt(data, at, labels, hops, width) && StartsWithLabel(data, at, labels)
    ensures width > 1 + |labels[0]| && NameAt(data, at + 1 + |labels[0]|, labels[1..], hops, width - 1 - |labels[0]|)
  {
    hide Target;
  }

  lemma PointerFirst(data: seq<Byte>, at: nat, labels: seq<seq<Byte>>, hops: nat, width: nat)
    returns (target: nat, w: nat)
    requires NameAt(data, at, labels, hops, width) && hops > 0 && !StartsWithLabel(data, at, labels)
    ensures PointsTo(data, at, target) && width == 2 && NameAt(data, target, labels, hops - 1, w)
  {
    hide Target;
    target := Target(data[at], data[at + 1]);
    w :| NameAt(data, target, labels, hops - 1, w);
  }

  lemma MoreLabels(data: seq<Byte>, at: nat, part: seq<Byte>, more: seq<seq<Byte>>, end: nat)
    requires StartsWithLabel(data, at, [part]) && LabelsUpTo(data, at + 1 + |part|, more, end)
    ensures LabelsUpTo(data, at, [part] + more, end)
  {
    assert ([part] + more)[1..] == more;
  }

  lemma NoLabels(data: seq<Byte>, at: nat)
    ensures LabelsUpTo(data, at, [], at)
  {
  }

  lemma {:induction false} JoinAtPointer(data: seq<Byte>, at: nat, own: seq<seq<Byte>>, end: nat, target: nat,
                                         rest: seq<seq<Byte>>, hops: nat, w: nat)
    requires LabelsUpTo(data, at, own, end) && PointsTo(data, end, target) && NameAt(data, target, rest, hops, w)
    ensures at <= end && NameAt(data, at, own + rest, hops + 1, end + 2 - at)
    decreases |own|
  {
    if own == [] {
      assert own + rest == rest;
    } else {
      var n := |own[0]|;
      JoinAtPointer(data, at + 1 + n, own[1..], end, target, rest, hops, w);
      assert (own + rest)[0] == own[0] && (own + rest)[1..] == own[1..] + rest;
    }
  }

  lemma FramedByte(m: seq<Byte>, at: nat)
    requires |m| < 65536 && at < |m|
    ensures |Framed(m)| == |m| + 2 && Framed(m)[at + 2] == m[at]
  {
  }

  lemma FramedSlice(m: seq<Byte>, a: nat, b: nat)
    requires |m| < 65536 && a <= b <= |m|
    ensures |Framed(m)| == |m| + 2 && Framed(m)[a + 2..b + 2] == m[a..b]
  {
  }

  lemma {:induction false} FramedLabels(m: seq<Byte>, at: nat, own: seq<seq<Byte>>, end: nat)
    requires |m| < 65536 && LabelsUpTo(m, at, own, end)
    ensures LabelsUpTo(Framed(m), at + 2, own, end + 2)
    decreases |own|
  {
    hide Framed;
    if own != [] {
      var n := |own[0]|;
      FramedByte(m, at);
      FramedSlice(m, at + 1, at + 1 + n);
      FramedLabels(m, at + 1 + n, own[1..], end);
    }
  }

  lemma FramedPointer(m: seq<Byte>, end: nat, target: nat)
    requires |m| < 65536 && PointsTo(m, end, target)
    ensures PointsTo(Framed(m), end + 2, target)
    ensures 2 <= target <= |m| + 2 ==> Framed(m)[target..] == m[target - 2..]
  {
    hide IsPointer, Target;
    FramedByte(m, end);
    FramedByte(m, end + 1);
  }

  /** Every name with a pointer is read two bytes early behind the prefix: its own labels are the same,
      and they are followed by the name that stands two bytes in front of the pointer's target. */
  lemma CompressedIsReadEarly(m: seq<Byte>, at: nat, labels: seq<seq<Byte>>, hops: nat, width: nat)
    returns (own: seq<seq<Byte>>, target: nat, rest: seq<seq<Byte>>)
    requires |m| < 65536 && NameAt(m, at, labels, hops, width) && hops > 0 && Acceptable(labels, hops)
    ensures labels == own + rest && IsLaid(m, target, rest, hops - 1)
    ensures ReadName(m, at) == Some(Name(Dotted(own + rest), width))
    ensures forall early :: StandsEarly(m, target, early) && Acceptable(own + early, 1) ==>
                ReadName(Framed(m), at + 2) == Some(Name(Dotted(own + early), width))
  {
    hide NameAt, LabelsUpTo, PointsTo, Acceptable, Dotted, ReadName, Framed;
    var end, v;
    own, end, target, rest, v := SplitAtPointer(m, at, labels, hops, width);
    LaidNameIsRead(m, at, labels, hops, width);
    forall early | StandsEarly(m, target, early) && Acceptable(own + early, 1)
      ensures ReadName(Framed(m), at + 2) == Some(Name(Dotted(own + early), width))
    {
      EarlyIsLaid(m, at, own, end, target, early);
      LaidNameIsRead(Framed(m), at + 2, own + early, 1, width);
    }
  }

  lemma EarlyIsLaid(m: seq<Byte>, at: nat, own: seq<seq<Byte>>, end: nat, target: nat, early: seq<seq<Byte>>)
    requires |m| < 65536 && LabelsUpTo(m, at, own, end) && PointsTo(m, end, target) && StandsEarly(m, target, early)
    ensures at <= end && NameAt(Framed(m), at + 2, own + early, 1, end + 2 - at)
  {
    hide NameAt, LabelsUpTo, PointsTo;
    var w :| NameAt(m, target - 2, early, 0, w);
    FramedLabels(m, at, own, end);
    FramedPointer(m, end, target);
    FramedName([|m| / 256, |m| % 256], m, target - 2, early, w);
    JoinAtPointer(Framed(m), at + 2, own, end + 2, target, early, 0, w);
  }

  // ---------------------------------------------------------------- a compressed response over TCP

  /** Header; the question `a` of type and class 1; one CNAME answer whose owner
      and target are pointers to the question. */
  const MESSAGE: seq<Byte> :=
    [0, 0, 0x81, 0x80, 0, 1, 0, 1, 0, 0, 0, 0]
    + [1, 97, 0, 0, 1, 0, 1]
    + [0xC0, 12, 0, 5, 0, 1, 0, 0, 0, 60, 0, 2, 0xC0, 12]

  const LABEL: seq<seq<Byte>> := [[97]]

  /** The name `a`, and a pointer to what stands at the pointer's target. */
  const QUESTION: WireName := WireName(LABEL, 0, 3)
  const POINTED: WireName := WireName(LABEL, 1, 2)
  const EMPTY: WireName := WireName([], 1, 2)

  const MEANT: RR := RR(POINTED, 5, [0xC0, 12], POINTED)
  const READ: RR := RR(EMPTY, 5, [0xC0, 12], EMPTY)

  lemma DottedA()
    ensures Dotted(LABEL) == "a" && Acceptable(LABEL, 0) && Acceptable(LABEL, 1)
    ensures Dotted([]) == "" && Acceptable([], 1)
  {
    assert LabelText([97]) == "a";
    assert LabelTexts(LABEL) == ["a"];
    assert LabelTexts([]) == [];
  }

  lemma QuestionStands(data: seq<Byte>, at: nat)
    requires at + 3 <= |data| && data[at] == 1 && data[at + 1] == 97 && data[at + 2] == 0
    ensures Stands(data, at, QUESTION)
  {
    hide Acceptable, Dotted;
    DottedA();
    assert data[at + 1..at + 2] == [97] && LABEL[1..] == [];
    assert NameAt(data, at + 2, [], 0, 1);
    assert NameAt(data, at, LABEL, 0, 3);
  }

  lemma PointerStands(data: seq<Byte>, at: nat, n: WireName)
    requires at + 2 <= |data| && data[at] == 0xC0 && data[at + 1] == 12 && n.hops == 0
    requires NameAt(data, 12, n.labels, 0, n.width) && Acceptable(n.labels, 1)
    ensures Stands(data, at, WireName(n.labels, 1, 2))
  {
    hide Acceptable;
    assert Target(0xC0, 12) == 12;
  }

  /** The two pointers of the answer, wherever its owner name stands. */
  lemma PointersTo(data: seq<Byte>, at: nat, n: WireName, owner: nat, target: nat)
    requires at == 12 && Stands(data, 12, n) && n.hops == 0 && Acceptable(n.labels, 1)
    requires owner + 2 <= |data| && data[owner] == 0xC0 && data[owner + 1] == 12
    requires target + 2 <= |data| && data[target] == 0xC0 && data[target + 1] == 12
    ensures Stands(data, owner, WireName(n.labels, 1, 2)) && Stands(data, target, WireName(n.labels, 1, 2))
  {
    hide Acceptable;
    PointerStands(data, owner, n);
    PointerStands(data, target, n);
  }

  lemma ShownOne(text: string)
    requires text != ""
    ensures Shown([text]) == text && IfAny(text) + [] == [text]
  {
    assert [text][..0] == [] && [text][..1] == [text];
    assert Join([], ";") == "" && Join([text], ";") == text;
    assert Cut([text], 1) == 1;
  }

  lemma OneAnswer(data: seq<Byte>, tcp: bool, q: WireName, rr: RR)
    requires HasHeader(data, tcp) && Word16(data, Base(tcp) + 4) == 1 && Word16(data, Base(tcp) + 6) == 1
    requires Stands(data, Base(tcp) + 12, q) && Base(tcp) + 12 + q.width + 4 <= |data|
    requires RRAt(data, Base(tcp) + 12 + q.width + 4, rr) && Says(rr) != ""
    ensures Answers(data, tcp) == Says(rr)
  {
    hide Stands, RRAt, Says, Answers, Word16, Shown, IfAny;
    var at := Base(tcp) + 12;
    assert [q][1..] == [] && [rr][1..] == [];
    assert QuestionsAt(data, at + q.width + 4, []) && QuestionsAt(data, at, [q]);
    assert QuestionsEnd(at + q.width + 4, []) == at + q.width + 4;
    assert QuestionsEnd(at, [q]) == at + q.width + 4;
    assert RRsAt(data, End(at + q.width + 4, rr), []) && RRsAt(data, at + q.width + 4, [rr]);
    assert AllSay([]) == [] && AllSay([rr]) == IfAny(Says(rr)) + [];
    ShownOne(Says(rr));
    ResponseReadsBack(data, tcp, [q], [rr]);
  }

  lemma MessageBytes()
    ensures |MESSAGE| == 33 && HasHeader(MESSAGE, false)
    ensures Word16(MESSAGE, 4) == 1 && Word16(MESSAGE, 6) == 1
    ensures MESSAGE[10] == 0 && MESSAGE[12] == 1 && MESSAGE[13] == 97 && MESSAGE[14] == 0
    ensures MESSAGE[19] == MESSAGE[31] == 0xC0 && MESSAGE[20] == MESSAGE[32] == 12
    ensures Word16(MESSAGE, 21) == 5 && Word16(MESSAGE, 29) == 2
  {
  }

  lemma AnswerRecord(data: seq<Byte>, at: nat, rr: RR)
    requires at + 14 <= |data| && rr.owner.width == 2 && rr.rtype == 5 && rr.rdata == [0xC0, 12]
    requires Stands(data, at, rr.owner) && Stands(data, at + 12, rr.target)
    requires Word16(data, at + 2) == 5 && Word16(data, at + 10) == 2 && data[at + 12] == 0xC0 && data[at + 13] == 12
    ensures RRAt(data, at, rr)
  {
    hide Stands, Word16;
    assert data[at + 12..at + 14] == [0xC0, 12];
  }

  /** In a datagram the pointers mean the question's name. */
  lemma AsMeant()
    ensures Answers(MESSAGE, false) == "CNAME:a"
  {
    hide Stands, Answers, MESSAGE, Word16, HasHeader, Dotted, Acceptable;
    MessageBytes();
    DottedA();
    QuestionStands(MESSAGE, 12);
    PointersTo(MESSAGE, 12, QUESTION, 19, 31);
    AnswerRecord(MESSAGE, 19, MEANT);
    OneAnswer(MESSAGE, false, QUESTION, MEANT);
  }

  lemma FramedBytes()
    ensures var f := Framed(MESSAGE);
            && |f| == 35 && HasHeader(f, true) && Word16(f, 6) == 1 && Word16(f, 8) == 1
            && f[12] == 0 && f[14] == 1 && f[15] == 97 && f[16] == 0
            && f[21] == f[33] == 0xC0 && f[22] == f[34] == 12 && Word16(f, 23) == 5 && Word16(f, 31) == 2
  {
    hide Word16, MESSAGE;
    MessageBytes();
    FramedLength(MESSAGE);
    FramedWord(MESSAGE, 2);
    FramedWord(MESSAGE, 4);
    FramedWord(MESSAGE, 6);
    FramedWord(MESSAGE, 21);
    FramedWord(MESSAGE, 29);
    forall k | 0 <= k < 33 ensures Framed(MESSAGE)[k + 2] == MESSAGE[k] {}
    assert Framed(MESSAGE)[10 + 2] == MESSAGE[10];
    assert Framed(MESSAGE)[19 + 2] == MESSAGE[19] && Framed(MESSAGE)[31 + 2] == MESSAGE[31];
  }

  lemma RootStands(data: seq<Byte>)
    requires |data| > 12 && data[12] == 0
    ensures NameAt(data, 12, [], 0, 1)
  {
  }

  /** The same response behind its length: the pointers now mean what stands two bytes earlier, the empty name. */
  lemma CompressedIsMisread()
    ensures Answers(MESSAGE, false) == "CNAME:a" && Answers(Framed(MESSAGE), true) == "CNAME:"
  {
    hide Stands, Answers, MESSAGE, Word16, HasHeader, Dotted, Acceptable, Framed, NameAt;
    AsMeant();
    MessageBytes();
    var f := Framed(MESSAGE);
    FramedBytes();
    DottedA();
    RootStands(f);
    QuestionStands(f, 14);
    PointerStands(f, 21, WireName([], 0, 1));
    PointerStands(f, 33, WireName([], 0, 1));
    AnswerRecord(f, 21, READ);
    OneAnswer(f, true, QUESTION, READ);
  }
}
