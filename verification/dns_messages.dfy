/** `DecodeDnsResponse` in NETOWRK ENDPOINT/protocol_decoder.cpp, against the wire layout of messages
    (section 4.1 of RFC 1035). */
module DnsMessages {
  import opened Text
  import opened DnsNames
  import JsonFields
  import JsonNumbers
  import JsonPrinter

  const MAX_ANSWERS: nat := 16
  const MAX_TEXT: nat := 2048

  // ---------------------------------------------------------------- numbers

  function Word16(data: seq<Byte>, at: nat): nat
    requires at + 2 <= |data|
  {
    var high: nat, low: nat := data[at], data[at + 1];
    high * 256 + low
  }

  function Read16(data: seq<Byte>, at: nat): Option<nat> {
    if at + 2 > |data| then None else Some(Word16(data, at))
  }

  // ---------------------------------------------------------------- renderings

  function Ipv4(b: seq<Byte>): string
    requires |b| == 4
  {
    JsonNumbers.Decimal(b[0]) + "." + JsonNumbers.Decimal(b[1]) + "." + JsonNumbers.Decimal(b[2]) + "."
      + JsonNumbers.Decimal(b[3])
  }

  function HexByte(b: Byte): string { [JsonPrinter.HexDigit(b / 16), JsonPrinter.HexDigit(b % 16)] }

  /** Bytes in pairs, joined with colons. */
  function HexPairs(b: seq<Byte>): (r: string)
    requires |b| % 2 == 0
  {
    if b == [] then ""
    else if |b| == 2 then HexByte(b[0]) + HexByte(b[1])
    else HexByte(b[0]) + HexByte(b[1]) + ":" + HexPairs(b[2..])
  }

  function Ipv6(b: seq<Byte>): string
    requires |b| == 16
  {
    HexPairs(b)
  }

  // ---------------------------------------------------------------- the decoder

  datatype Record = Record(rtype: nat, rdata: nat, length: nat)

  /** The resource record at `at`, if it can be read and its data is inside the message. */
  function RecordAt(data: seq<Byte>, at: nat): (r: Option<Record>)
    ensures r.Some? ==> r.value.rdata >= at && r.value.rdata + r.value.length <= |data|
  {
    match ReadName(data, at)
    case None => None
    case Some(name) =>
      var fixed := at + name.width;
      if fixed + 10 > |data| then None
      else
        var length := Word16(data, fixed + 8);
        if fixed + 10 + length > |data| then None else Some(Record(Word16(data, fixed), fixed + 10, length))
  }

  /** The text of a record; empty when it has none. */
  function Rendered(data: seq<Byte>, r: Record): string
    requires r.rdata + r.length <= |data|
  {
    if r.rtype == 1 && r.length == 4 then "A:" + Ipv4(data[r.rdata..r.rdata + 4])
    else if r.rtype == 28 && r.length == 16 then "AAAA:" + Ipv6(data[r.rdata..r.rdata + 16])
    else if r.rtype == 5 then
      match ReadName(data, r.rdata)
      case None => ""
      case Some(name) => "CNAME:" + name.text
    else ""
  }

  function IfAny(text: string): seq<string> { if text == "" then [] else [text] }

  /** The texts of the next `n` records, up to the first that cannot be read. */
  function Renderings(data: seq<Byte>, at: nat, n: nat): seq<string>
    decreases n
  {
    if n == 0 then []
    else
      match RecordAt(data, at)
      case None => []
      case Some(r) => IfAny(Rendered(data, r)) + Renderings(data, r.rdata + r.length, n - 1)
  }

  /** Where the list of texts is cut: after 16, or as soon as the joined text is longer than 2048. */
  function Cut(texts: seq<string>, k: nat): (r: nat)
    requires k <= |texts|
    ensures k <= r <= |texts|
    decreases |texts| - k
  {
    if k >= |texts| || k >= MAX_ANSWERS || |Join(texts[..k], ";")| > MAX_TEXT then k else Cut(texts, k + 1)
  }

  function Shown(texts: seq<string>): string { Join(texts[..Cut(texts, 0)], ";") }

  /** Skips the name, type and class of the next `n` questions. */
  function AfterQuestions(data: seq<Byte>, at: nat, n: nat): Option<nat>
    decreases n
  {
    if n == 0 then Some(at)
    else
      match ReadName(data, at)
      case None => None
      case Some(name) => if at + name.width + 4 > |data| then None else AfterQuestions(data, at + name.width + 4, n - 1)
  }

  function Base(tcp: bool): nat { if tcp then 2 else 0 }

  /** A response header with at least one question and one answer. */
  predicate HasHeader(data: seq<Byte>, tcp: bool) {
    && (tcp ==> |data| >= 2 && Word16(data, 0) <= |data| - 2)
    && Base(tcp) + 12 <= |data|
    && Word16(data, Base(tcp) + 2) >= 0x8000
    && Word16(data, Base(tcp) + 4) != 0 && Word16(data, Base(tcp) + 6) != 0
  }

  /** `DecodeDnsResponse`; the call succeeds if and only if the text is not empty. */
  function Answers(data: seq<Byte>, tcp: bool): string {
    if !HasHeader(data, tcp) then ""
    else
      match AfterQuestions(data, Base(tcp) + 12, Word16(data, Base(tcp) + 4))
      case None => ""
      case Some(at) => Shown(Renderings(data, at, Word16(data, Base(tcp) + 6)))
  }

  // ---------------------------------------------------------------- the cut

  /** The cut is the only place before which every joined text fits, and at which the list ends, 16 are shown,
      or the joined text is too long. */
  ghost predicate IsCut(texts: seq<string>, k: nat) {
    && k <= |texts| && k <= MAX_ANSWERS
    && (k == |texts| || k == MAX_ANSWERS || |Join(texts[..k], ";")| > MAX_TEXT)
    && forall i :: 0 <= i < k ==> |Join(texts[..i], ";")| <= MAX_TEXT
  }

  lemma {:induction false} CutFrom(texts: seq<string>, k: nat)
    requires k <= |texts| && k <= MAX_ANSWERS && forall i :: 0 <= i < k ==> |Join(texts[..i], ";")| <= MAX_TEXT
    ensures IsCut(texts, Cut(texts, k))
    decreases |texts| - k
  {
    hide Join;
    if k < |texts| && k < MAX_ANSWERS && |Join(texts[..k], ";")| <= MAX_TEXT { CutFrom(texts, k + 1); }
  }

  lemma CutIsUnique(texts: seq<string>, k: nat)
    ensures IsCut(texts, Cut(texts, 0))
    ensures IsCut(texts, k) ==> k == Cut(texts, 0)
  {
    hide Join, Cut;
    CutFrom(texts, 0);
  }

  // ---------------------------------------------------------------- messages laid out

  datatype WireName = WireName(labels: seq<seq<Byte>>, hops: nat, width: nat)

  ghost predicate Stands(data: seq<Byte>, at: nat, n: WireName) {
    NameAt(data, at, n.labels, n.hops, n.width) && Acceptable(n.labels, n.hops)
  }

  /** A resource record; `target` is the name in the data of a CNAME record. */
  datatype RR = RR(owner: WireName, rtype: nat, rdata: seq<Byte>, target: WireName)

  function End(at: nat, rr: RR): nat { at + rr.owner.width + 10 + |rr.rdata| }

  ghost predicate RRAt(data: seq<Byte>, at: nat, rr: RR) {
    && Stands(data, at, rr.owner) && End(at, rr) <= |data|
    && Word16(data, at + rr.owner.width) == rr.rtype && Word16(data, at + rr.owner.width + 8) == |rr.rdata|
    && data[at + rr.owner.width + 10..End(at, rr)] == rr.rdata
    && (rr.rtype == 5 ==> Stands(data, at + rr.owner.width + 10, rr.target))
  }

  ghost predicate RRsAt(data: seq<Byte>, at: nat, rrs: seq<RR>)
    decreases |rrs|
  {
    rrs == [] || (RRAt(data, at, rrs[0]) && RRsAt(data, End(at, rrs[0]), rrs[1..]))
  }

  ghost predicate QuestionsAt(data: seq<Byte>, at: nat, qs: seq<WireName>)
    decreases |qs|
  {
    qs == [] || (Stands(data, at, qs[0]) && at + qs[0].width + 4 <= |data|
                 && QuestionsAt(data, at + qs[0].width + 4, qs[1..]))
  }

  function QuestionsEnd(at: nat, qs: seq<WireName>): nat
    decreases |qs|
  {
    if qs == [] then at else QuestionsEnd(at + qs[0].width + 4, qs[1..])
  }

  /** What a record says. */
  function Says(rr: RR): string {
    if rr.rtype == 1 && |rr.rdata| == 4 then "A:" + Ipv4(rr.rdata)
    else if rr.rtype == 28 && |rr.rdata| == 16 then "AAAA:" + Ipv6(rr.rdata)
    else if rr.rtype == 5 then "CNAME:" + Dotted(rr.target.labels)
    else ""
  }

  function AllSay(rrs: seq<RR>): seq<string> {
    if rrs == [] then [] else IfAny(Says(rrs[0])) + AllSay(rrs[1..])
  }

  lemma StandingIsRead(data: seq<Byte>, at: nat, n: WireName)
    requires Stands(data, at, n)
    ensures ReadName(data, at) == Some(Name(Dotted(n.labels), n.width))
  {
    hide NameAt, Acceptable, ReadName, Dotted;
    LaidNameIsRead(data, at, n.labels, n.hops, n.width);
  }

  lemma RecordIsRead(data: seq<Byte>, at: nat, rr: RR)
    requires RRAt(data, at, rr)
    ensures RecordAt(data, at) == Some(Record(rr.rtype, at + rr.owner.width + 10, |rr.rdata|))
    ensures Rendered(data, Record(rr.rtype, at + rr.owner.width + 10, |rr.rdata|)) == Says(rr)
  {
    hide Stands, ReadName, Dotted, Ipv4, Ipv6, Word16;
    StandingIsRead(data, at, rr.owner);
    if rr.rtype == 5 { StandingIsRead(data, at + rr.owner.width + 10, rr.target); }
  }

  lemma {:induction false} RecordsAreRead(data: seq<Byte>, at: nat, rrs: seq<RR>)
    requires RRsAt(data, at, rrs)
    ensures Renderings(data, at, |rrs|) == AllSay(rrs)
    decreases |rrs|
  {
    hide RRAt, RecordAt, Rendered, Says;
    if rrs != [] {
      RecordIsRead(data, at, rrs[0]);
      RecordsAreRead(data, End(at, rrs[0]), rrs[1..]);
    }
  }

  lemma {:induction false} QuestionsAreSkipped(data: seq<Byte>, at: nat, qs: seq<WireName>)
    requires QuestionsAt(data, at, qs)
    ensures AfterQuestions(data, at, |qs|) == Some(QuestionsEnd(at, qs))
    decreases |qs|
  {
    hide Stands, ReadName, Dotted;
    if qs != [] {
      StandingIsRead(data, at, qs[0]);
      QuestionsAreSkipped(data, at + qs[0].width + 4, qs[1..]);
    }
  }

  /** A response, in one datagram or behind a length prefix. */
  ghost predicate ResponseAt(data: seq<Byte>, tcp: bool, qs: seq<WireName>, rrs: seq<RR>) {
    && HasHeader(data, tcp)
    && Word16(data, Base(tcp) + 4) == |qs| && Word16(data, Base(tcp) + 6) == |rrs|
    && QuestionsAt(data, Base(tcp) + 12, qs) && RRsAt(data, QuestionsEnd(Base(tcp) + 12, qs), rrs)
  }

  /** For every laid-out response, with possibly compressed names: the decoder gives what its records say, in order,
      joined with semicolons and cut only by the two limits. */
  lemma ResponseReadsBack(data: seq<Byte>, tcp: bool, qs: seq<WireName>, rrs: seq<RR>)
    requires ResponseAt(data, tcp, qs, rrs)
    ensures Answers(data, tcp) == Shown(AllSay(rrs))
    ensures exists k: nat :: IsCut(AllSay(rrs), k) && Answers(data, tcp) == Join(AllSay(rrs)[..k], ";")
  {
    hide QuestionsAt, RRsAt, Renderings, AfterQuestions, Join, Cut, Word16, AllSay, IsCut;
    QuestionsAreSkipped(data, Base(tcp) + 12, qs);
    RecordsAreRead(data, QuestionsEnd(Base(tcp) + 12, qs), rrs);
    CutIsUnique(AllSay(rrs), 0);
  }

  // ---------------------------------------------------------------- the output is bounded

  const LONGEST: nat := 259

  lemma JoinSnoc(texts: seq<string>, text: string)
    ensures Join(texts + [text], ";") == if texts == [] then text else Join(texts, ";") + ";" + text
  {
    assert (texts + [text])[..|texts|] == texts;
  }

  lemma DecimalLength(b: Byte)
    ensures |JsonNumbers.Decimal(b)| <= 3
  {
    JsonNumbers.DecimalDenotes(b);
    assert JsonFields.Power10(1) == 10 && JsonFields.Power10(2) == 100 && JsonFields.Power10(3) == 1000;
  }

  lemma {:induction false} HexPairsLength(b: seq<Byte>)
    requires |b| % 2 == 0
    ensures |HexPairs(b)| <= |b| / 2 * 5
    decreases |b|
  {
    if |b| > 2 { HexPairsLength(b[2..]); }
  }

  lemma RenderedLength(data: seq<Byte>, r: Record)
    requires r.rdata + r.length <= |data|
    ensures |Rendered(data, r)| <= LONGEST
  {
    hide Dotted, ReadName, HexPairs, JsonNumbers.Decimal;
    if r.rtype == 1 && r.length == 4 {
      var b := data[r.rdata..r.rdata + 4];
      DecimalLength(b[0]);
      DecimalLength(b[1]);
      DecimalLength(b[2]);
      DecimalLength(b[3]);
    } else if r.rtype == 28 && r.length == 16 {
      HexPairsLength(data[r.rdata..r.rdata + 16]);
    } else if r.rtype == 5 && ReadName(data, r.rdata).Some? {
      var _, _, _ := ReadNameIsLaid(data, r.rdata);
    }
  }

  lemma {:induction false} RenderingsLength(data: seq<Byte>, at: nat, n: nat)
    ensures forall text <- Renderings(data, at, n) :: text != "" && |text| <= LONGEST
    decreases n
  {
    hide RecordAt, Rendered;
    if n > 0 && RecordAt(data, at).Some? {
      var r := RecordAt(data, at).value;
      RecordInside(data, at);
      RenderedLength(data, r);
      RenderingsLength(data, r.rdata + r.length, n - 1);
    }
  }

  lemma RecordInside(data: seq<Byte>, at: nat)
    ensures RecordAt(data, at).Some? ==> RecordAt(data, at).value.rdata + RecordAt(data, at).value.length <= |data|
  {
  }

  lemma ShownLength(texts: seq<string>)
    requires forall text <- texts :: |text| <= LONGEST
    ensures |Shown(texts)| <= MAX_TEXT + 1 + LONGEST
  {
    hide Join, Cut;
    var k := Cut(texts, 0);
    CutIsUnique(texts, k);
    if k > 0 {
      assert texts[..k] == texts[..k - 1] + [texts[k - 1]];
      JoinSnoc(texts[..k - 1], texts[k - 1]);
      assert texts[k - 1] in texts;
    } else {
      assert texts[..0] == [];
      assert Join([], ";") == "" by { JoinNothing(); }
    }
  }

  lemma JoinNothing()
    ensures Join([], ";") == ""
  {
  }

  /** Whatever the message claims, the output stays within 2308 characters. */
  lemma AnswersAreBounded(data: seq<Byte>, tcp: bool)
    ensures |Answers(data, tcp)| <= MAX_TEXT + 1 + LONGEST
  {
    hide Shown, Renderings, AfterQuestions;
    if HasHeader(data, tcp) && AfterQuestions(data, Base(tcp) + 12, Word16(data, Base(tcp) + 4)).Some? {
      var at := AfterQuestions(data, Base(tcp) + 12, Word16(data, Base(tcp) + 4)).value;
      RenderingsLength(data, at, Word16(data, Base(tcp) + 6));
      ShownLength(Renderings(data, at, Word16(data, Base(tcp) + 6)));
    }
  }

  // ---------------------------------------------------------------- DecodeDnsResponse

  method SkipQuestions(data: seq<Byte>, start: nat, questions: nat) returns (r: Option<nat>)
    ensures r == AfterQuestions(data, start, questions)
  {
    hide ReadName;
    var offset: nat := start;
    var q := 0;
    while q < questions
      invariant 0 <= q <= questions
      invariant AfterQuestions(data, offset, questions - q) == AfterQuestions(data, start, questions)
    {
      var ok, _, width := ReadDnsName(data, offset);
      if !ok { return None; }
      offset := offset + width;
      if offset + 4 > |data| { return None; }
      offset := offset + 4;
      q := q + 1;
    }
    return Some(offset);
  }

  method RenderRecord(data: seq<Byte>, r: Record) returns (text: string)
    requires r.rdata + r.length <= |data|
    ensures text == Rendered(data, r)
  {
    hide ReadName, Ipv4, Ipv6;
    text := "";
    if r.rtype == 1 && r.length == 4 {
      text := "A:" + Ipv4(data[r.rdata..r.rdata + 4]);
    } else if r.rtype == 28 && r.length == 16 {
      text := "AAAA:" + Ipv6(data[r.rdata..r.rdata + 16]);
    } else if r.rtype == 5 {
      var ok, cname, _ := ReadDnsName(data, r.rdata);
      if ok { text := "CNAME:" + cname; }
    }
  }

  method ReadRecord(data: seq<Byte>, start: nat) returns (r: Option<Record>)
    ensures r == RecordAt(data, start)
  {
    hide ReadName, Word16;
    var ok, _, width := ReadDnsName(data, start);
    if !ok { return None; }
    var offset := start + width;
    var rtype := Read16(data, offset);
    if rtype == None { return None; }
    if Read16(data, offset + 2) == None { return None; }
    if offset + 8 > |data| { return None; }
    var length := Read16(data, offset + 8);
    if length == None { return None; }
    offset := offset + 10;
    if offset + length.value > |data| { return None; }
    return Some(Record(rtype.value, offset, length.value));
  }

  lemma OneMoreShown(texts: seq<string>, n: nat, text: string, rest: seq<string>)
    requires n < |texts| && texts[n..] == [text] + rest
    ensures texts[..n + 1] == texts[..n] + [text] && texts[n + 1..] == rest
  {
    assert texts[n] == texts[n..][0];
    assert texts[n + 1..] == texts[n..][1..];
  }

  /** The first n texts have been joined, `rest` are still to come. */
  ghost predicate Collecting(texts: seq<string>, n: nat, answers: string, rest: seq<string>) {
    n <= |texts| && texts[n..] == rest && answers == Join(texts[..n], ";") && Cut(texts, 0) == Cut(texts, n)
  }

  lemma CollectingStarts(texts: seq<string>)
    ensures Collecting(texts, 0, "", texts)
  {
    assert texts[..0] == [] && texts[0..] == texts;
    JoinNothing();
  }

  lemma CollectMore(texts: seq<string>, n: nat, answers: string, text: string, rest: seq<string>)
    requires Collecting(texts, n, answers, [text] + rest) && n < MAX_ANSWERS && |answers| <= MAX_TEXT
    ensures Collecting(texts, n + 1, (if n > 0 then answers + ";" else answers) + text, rest)
  {
    hide Join;
    OneMoreShown(texts, n, text, rest);
    JoinSnoc(texts[..n], text);
    if n == 0 { JoinNothing(); }
  }

  /** Where the loop ends. */
  lemma CollectingEnds(texts: seq<string>, n: nat, answers: string, rest: seq<string>)
    requires Collecting(texts, n, answers, rest)
    requires rest == [] || n >= MAX_ANSWERS || |answers| > MAX_TEXT
    ensures answers == Shown(texts)
  {
    hide Join;
  }

  /** The answer loop. */
  method CollectAnswers(data: seq<Byte>, start: nat, count: nat) returns (answers: string)
    ensures answers == Shown(Renderings(data, start, count))
  {
    hide Join, RecordAt, Rendered, Shown, Collecting;
    ghost var texts := Renderings(data, start, count);
    answers := "";
    var offset: nat, rendered, a := start, 0, 0;
    CollectingStarts(texts);
    while a < count && rendered < MAX_ANSWERS
      invariant 0 <= a <= count
      invariant Collecting(texts, rendered, answers, Renderings(data, offset, count - a))
      invariant |answers| <= MAX_TEXT
    {
      var r := ReadRecord(data, offset);
      if r == None { break; }
      RecordInside(data, offset);
      var text := RenderRecord(data, r.value);
      ghost var rest := Renderings(data, r.value.rdata + r.value.length, count - a - 1);
      if text != "" {
        CollectMore(texts, rendered, answers, text, rest);
        if rendered > 0 { answers := answers + ";"; }
        answers := answers + text;
        rendered := rendered + 1;
      } else {
        assert [] + rest == rest;
      }
      offset := r.value.rdata + r.value.length;
      a := a + 1;
      if |answers| > MAX_TEXT { break; }
    }
    CollectingEnds(texts, rendered, answers, Renderings(data, offset, count - a));
  }

  method DecodeDnsResponse(data: seq<Byte>, tcp: bool) returns (ok: bool, answers: string)
    ensures answers == Answers(data, tcp) && ok == (Answers(data, tcp) != "")
  {
    hide AfterQuestions, Renderings, Shown;
    answers := "";
    var offset := if tcp then 2 else 0;
    if tcp {
      var length := Read16(data, 0);
      if length == None || length.value > |data| - 2 { return false, ""; }
    }
    if offset + 12 > |data| { return false, ""; }
    var flags, questions, count := Word16(data, offset + 2), Word16(data, offset + 4), Word16(data, offset + 6);
    if flags < 0x8000 || questions == 0 || count == 0 { return false, ""; }
    var after := SkipQuestions(data, offset + 12, questions);
    if after == None { return false, ""; }
    answers := CollectAnswers(data, after.value, count);
    ok := answers != "";
  }
}
