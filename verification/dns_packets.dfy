/** Responses and queries as a server writes them, byte by byte (section 4.1 of RFC 1035), and what the decoders make of
    them. */
module DnsPackets {
  import opened DnsNames
  import opened DnsMessages
  import opened DnsFraming
  import opened DnsAddresses
  import opened DnsQueries
  import opened Text

  /** Sixteen bits, the high byte first. */
  function Two(n: nat): seq<Byte>
    requires n < 65536
  {
    [n / 256, n % 256]
  }

  predicate Legal(labels: seq<seq<Byte>>) {
    && (forall i :: 0 <= i < |labels| ==> 1 <= |labels[i]| <= 63)
    && AllPrintable(labels) && |Dotted(labels)| <= 253
  }

  /** What is written: `tail` is the type and class of a question. */
  datatype Question = Question(name: seq<seq<Byte>>, tail: seq<Byte>)

  /** `middle` is the class and the time to live. */
  datatype Answer = Address(owner: seq<seq<Byte>>, middle: seq<Byte>, b: seq<Byte>)
                  | Address6(owner: seq<seq<Byte>>, middle: seq<Byte>, b: seq<Byte>)
                  | Alias(owner: seq<seq<Byte>>, middle: seq<Byte>, target: seq<seq<Byte>>)
                  | Other(owner: seq<seq<Byte>>, middle: seq<Byte>, rtype: nat, b: seq<Byte>)

  predicate GoodQuestion(q: Question) { Legal(q.name) && |q.tail| == 4 }

  predicate GoodAnswer(a: Answer) {
    && Legal(a.owner) && |a.middle| == 6
    && match a
       case Address(_, _, b) => |b| == 4
       case Address6(_, _, b) => |b| == 16
       case Alias(_, _, target) => Legal(target) && |EncodeName(target)| < 65536
       case Other(_, _, rtype, b) => rtype < 65536 && rtype !in {1, 5, 28} && |b| < 65536
  }

  function TypeOf(a: Answer): nat {
    match a
    case Address(_, _, _) => 1
    case Address6(_, _, _) => 28
    case Alias(_, _, _) => 5
    case Other(_, _, rtype, _) => rtype
  }

  function DataOf(a: Answer): seq<Byte>
    requires GoodAnswer(a)
  {
    match a
    case Alias(_, _, target) => EncodeName(target)
    case Address(_, _, b) => b
    case Address6(_, _, b) => b
    case Other(_, _, _, b) => b
  }

  function WriteQuestion(q: Question): seq<Byte>
    requires GoodQuestion(q)
  {
    EncodeName(q.name) + q.tail
  }

  function WriteAnswer(a: Answer): seq<Byte>
    requires GoodAnswer(a)
  {
    EncodeName(a.owner) + (Two(TypeOf(a)) + a.middle + Two(|DataOf(a)|) + DataOf(a))
  }

  function WriteQuestions(qs: seq<Question>): seq<Byte>
    requires forall q <- qs :: GoodQuestion(q)
  {
    if qs == [] then [] else WriteQuestion(qs[0]) + WriteQuestions(qs[1..])
  }

  function WriteAnswers(xs: seq<Answer>): seq<Byte>
    requires forall a <- xs :: GoodAnswer(a)
  {
    if xs == [] then [] else WriteAnswer(xs[0]) + WriteAnswers(xs[1..])
  }

  predicate Writable(id: nat, flags: nat, others: seq<Byte>, qs: seq<Question>, xs: seq<Answer>) {
    && id < 65536 && flags < 65536 && |others| == 4 && |qs| < 65536 && |xs| < 65536
    && (forall q <- qs :: GoodQuestion(q)) && forall a <- xs :: GoodAnswer(a)
  }

  function Header(id: nat, flags: nat, questions: nat, answers: nat, others: seq<Byte>): seq<Byte>
    requires id < 65536 && flags < 65536 && questions < 65536 && answers < 65536
  {
    Two(id) + Two(flags) + Two(questions) + Two(answers) + others
  }

  /** A message: `others` are the counts of the two sections that follow the answers. */
  function Message(id: nat, flags: nat, others: seq<Byte>, qs: seq<Question>, xs: seq<Answer>): seq<Byte>
    requires Writable(id, flags, others, qs, xs)
  {
    Header(id, flags, |qs|, |xs|, others) + WriteQuestions(qs) + WriteAnswers(xs)
  }

  // ---------------------------------------------------------------- what stands in the message

  function NameOn(labels: seq<seq<Byte>>): WireName
    requires Legal(labels)
  {
    WireName(labels, 0, |EncodeName(labels)|)
  }

  /** The record as laid out. */
  function Laid(a: Answer): RR
    requires GoodAnswer(a)
  {
    RR(NameOn(a.owner), TypeOf(a), DataOf(a), if a.Alias? then NameOn(a.target) else WireName([], 0, 1))
  }

  function LaidAll(xs: seq<Answer>): (r: seq<RR>)
    requires forall a <- xs :: GoodAnswer(a)
    ensures |r| == |xs| && forall i :: 0 <= i < |r| ==> r[i] == Laid(xs[i])
  {
    seq(|xs|, i requires 0 <= i < |xs| => Laid(xs[i]))
  }

  function NameAsked(q: Question): WireName
    requires GoodQuestion(q)
  {
    NameOn(q.name)
  }

  function Names(qs: seq<Question>): (r: seq<WireName>)
    requires forall q <- qs :: GoodQuestion(q)
    ensures |r| == |qs| && forall i :: 0 <= i < |r| ==> r[i] == NameAsked(qs[i])
  {
    seq(|qs|, i requires 0 <= i < |qs| => NameAsked(qs[i]))
  }

  lemma NameStands(before: seq<Byte>, labels: seq<seq<Byte>>, after: seq<Byte>)
    requires Legal(labels)
    ensures Stands(before + EncodeName(labels) + after, |before|, NameOn(labels))
  {
    hide AllPrintable, Dotted, EncodeName;
    EncodedNameIsLaid(before, labels, after);
    UncompressedIsAcceptable(labels);
  }

  lemma WordStands(before: seq<Byte>, n: nat, after: seq<Byte>)
    requires n < 65536
    ensures Word16(before + Two(n) + after, |before|) == n
  {
    var data := before + Two(n) + after;
    assert data[|before|] == n / 256 && data[|before| + 1] == n % 256;
  }

  /** Type, length and data behind a name. */
  lemma FieldsStand(front: seq<Byte>, rtype: nat, middle: seq<Byte>, rdata: seq<Byte>, after: seq<Byte>)
    requires rtype < 65536 && |rdata| < 65536 && |middle| == 6
    ensures var data := front + (Two(rtype) + middle + Two(|rdata|) + rdata) + after;
            var head := front + Two(rtype) + middle + Two(|rdata|);
            && data == head + rdata + after && |head| == |front| + 10
            && Word16(data, |front|) == rtype && Word16(data, |front| + 8) == |rdata|
            && data[|head|..|head| + |rdata|] == rdata
  {
    hide Word16, Two;
    TwoBytes(rtype);
    TwoBytes(|rdata|);
    var data := front + (Two(rtype) + middle + Two(|rdata|) + rdata) + after;
    assert data == front + Two(rtype) + (middle + Two(|rdata|) + rdata + after);
    WordStands(front, rtype, middle + Two(|rdata|) + rdata + after);
    assert data == (front + Two(rtype) + middle) + Two(|rdata|) + (rdata + after);
    WordStands(front + Two(rtype) + middle, |rdata|, rdata + after);
  }

  lemma AnswerStands(before: seq<Byte>, a: Answer, after: seq<Byte>)
    requires GoodAnswer(a)
    ensures RRAt(before + WriteAnswer(a) + after, |before|, Laid(a))
    ensures End(|before|, Laid(a)) == |before + WriteAnswer(a)|
  {
    hide Stands, Word16, AllPrintable, Dotted, EncodeName, Two, TypeOf, DataOf;
    TypesAre(a);
    var name, rdata := EncodeName(a.owner), DataOf(a);
    var data, fields := before + WriteAnswer(a) + after, Two(TypeOf(a)) + a.middle + Two(|rdata|) + rdata;
    assert data == before + name + (fields + after);
    NameStands(before, a.owner, fields + after);
    assert data == (before + name) + fields + after;
    FieldsStand(before + name, TypeOf(a), a.middle, rdata, after);
    if a.Alias? { NameStands(before + name + Two(TypeOf(a)) + a.middle + Two(|rdata|), a.target, after); }
    assert |before + WriteAnswer(a)| == |before| + |name| + 10 + |rdata|;
  }

  lemma TwoBytes(n: nat)
    requires n < 65536
    ensures |Two(n)| == 2
  {
  }

  lemma TypesAre(a: Answer)
    requires GoodAnswer(a)
    ensures TypeOf(a) < 65536 && |DataOf(a)| < 65536 && (TypeOf(a) == 5 <==> a.Alias?)
    ensures a.Alias? ==> DataOf(a) == EncodeName(a.target)
  {
  }

  lemma {:induction false} AnswersStand(before: seq<Byte>, xs: seq<Answer>, after: seq<Byte>)
    requires forall a <- xs :: GoodAnswer(a)
    ensures RRsAt(before + WriteAnswers(xs) + after, |before|, LaidAll(xs))
    decreases |xs|
  {
    hide RRAt, GoodAnswer, WriteAnswer, Laid, End;
    if xs != [] {
      var first, rest := WriteAnswer(xs[0]), WriteAnswers(xs[1..]);
      AnswerStands(before, xs[0], rest + after);
      AnswersStand(before + first, xs[1..], after);
      assert before + WriteAnswers(xs) + after == before + first + (rest + after) == (before + first) + rest + after;
      assert LaidAll(xs)[1..] == LaidAll(xs[1..]);
    }
  }

  lemma QuestionStands(before: seq<Byte>, q: Question, after: seq<Byte>)
    requires GoodQuestion(q)
    ensures Stands(before + WriteQuestion(q) + after, |before|, NameAsked(q))
    ensures |before| + NameAsked(q).width + 4 == |before + WriteQuestion(q)|
  {
    hide Stands, AllPrintable, Dotted, EncodeName;
    NameStands(before, q.name, q.tail + after);
    assert before + WriteQuestion(q) + after == before + EncodeName(q.name) + (q.tail + after);
  }

  lemma {:induction false} QuestionsStand(before: seq<Byte>, qs: seq<Question>, after: seq<Byte>)
    requires forall q <- qs :: GoodQuestion(q)
    ensures QuestionsAt(before + WriteQuestions(qs) + after, |before|, Names(qs))
    ensures QuestionsEnd(|before|, Names(qs)) == |before + WriteQuestions(qs)|
    decreases |qs|
  {
    hide Stands, GoodQuestion, WriteQuestion, NameAsked;
    if qs != [] {
      var first, rest := WriteQuestion(qs[0]), WriteQuestions(qs[1..]);
      QuestionStands(before, qs[0], rest + after);
      QuestionsStand(before + first, qs[1..], after);
      assert before + WriteQuestions(qs) + after == before + first + (rest + after) == (before + first) + rest + after;
      assert Names(qs)[1..] == Names(qs[1..]);
    }
  }

  lemma HeaderStands(id: nat, flags: nat, questions: nat, answers: nat, others: seq<Byte>, body: seq<Byte>)
    requires id < 65536 && flags < 65536 && questions < 65536 && answers < 65536 && |others| == 4
    ensures var data := Header(id, flags, questions, answers, others) + body;
            && |Header(id, flags, questions, answers, others)| == 12 <= |data|
            && Word16(data, 2) == flags && Word16(data, 4) == questions && Word16(data, 6) == answers
  {
    hide Word16;
    var data := Header(id, flags, questions, answers, others) + body;
    WordStands(Two(id), flags, Two(questions) + Two(answers) + others + body);
    assert data == Two(id) + Two(flags) + (Two(questions) + Two(answers) + others + body);
    WordStands(Two(id) + Two(flags), questions, Two(answers) + others + body);
    assert data == Two(id) + Two(flags) + Two(questions) + (Two(answers) + others + body);
    WordStands(Two(id) + Two(flags) + Two(questions), answers, others + body);
    assert data == Two(id) + Two(flags) + Two(questions) + Two(answers) + (others + body);
  }

  /** The written message is a response, with the written names and records. */
  lemma MessageStands(id: nat, flags: nat, others: seq<Byte>, qs: seq<Question>, xs: seq<Answer>)
    requires Writable(id, flags, others, qs, xs) && flags >= 0x8000 && qs != [] && xs != []
    ensures ResponseAt(Message(id, flags, others, qs, xs), false, Names(qs), LaidAll(xs))
  {
    hide Word16, GoodQuestion, GoodAnswer, QuestionsAt, RRsAt, WriteQuestions, WriteAnswers, Header;
    var head, asked, told := Header(id, flags, |qs|, |xs|, others), WriteQuestions(qs), WriteAnswers(xs);
    var data := Message(id, flags, others, qs, xs);
    HeaderStands(id, flags, |qs|, |xs|, others, asked + told);
    assert data == head + (asked + told) == head + asked + told;
    QuestionsStand(head, qs, told);
    AnswersStand(head + asked, xs, []);
    assert head + asked + told + [] == data;
  }

  // ---------------------------------------------------------------- reading it back

  predicate IsShown(a: Answer) { !a.Other? }

  function ShownOf(xs: seq<Answer>): seq<Answer> {
    if xs == [] then [] else (if IsShown(xs[0]) then [xs[0]] else []) + ShownOf(xs[1..])
  }

  /** The text is what was written. */
  predicate Gives(text: string, a: Answer) {
    match a
    case Address(_, _, b) => |text| >= 2 && text[..2] == "A:" && DottedOf(text[2..], b)
    case Address6(_, _, b) =>
      |text| >= 5 && text[..5] == "AAAA:" && |Parts(text[5..], ':')| == 8 && GroupsOf(Parts(text[5..], ':'), b)
    case Alias(_, _, target) => |text| >= 6 && text[..6] == "CNAME:" && NameOf(text[6..], target)
    case Other(_, _, _, _) => false
  }

  predicate AllGive(texts: seq<string>, xs: seq<Answer>) {
    |texts| == |xs| && forall i :: 0 <= i < |texts| ==> Gives(texts[i], xs[i])
  }

  /** Everything written that has a text comes back, in order, up to the limits of 16 answers and 2048 characters. */
  predicate GivesBack(answers: string, shown: seq<Answer>) {
    if shown == [] then answers == ""
    else
      var texts := Parts(answers, ';');
      && |texts| <= |shown| && |texts| <= 16 && AllGive(texts, shown[..|texts|])
      && (|texts| == |shown| || |texts| == 16 || |answers| > 2048)
      && forall n :: 0 <= n < |texts| ==> |Join(texts[..n], ";")| <= 2048
  }

  lemma LaidTells(text: string, a: Answer)
    requires GoodAnswer(a)
    ensures IsTold(Laid(a)) <==> IsShown(a)
    ensures Tells(text, Laid(a)) ==> Gives(text, a)
  {
    hide DottedOf, GroupsOf, Parts, NameOf, AllPrintable, Dotted, EncodeName;
  }

  lemma {:induction false} ToldIsShown(xs: seq<Answer>)
    requires forall a <- xs :: GoodAnswer(a)
    ensures forall a <- ShownOf(xs) :: GoodAnswer(a)
    ensures Told(LaidAll(xs)) == LaidAll(ShownOf(xs))
  {
    hide GoodAnswer, Laid, IsTold;
    if xs != [] {
      LaidTells("", xs[0]);
      assert LaidAll(xs)[1..] == LaidAll(xs[1..]);
      ToldIsShown(xs[1..]);
    }
  }

  lemma TellsGives(texts: seq<string>, xs: seq<Answer>)
    requires (forall a <- xs :: GoodAnswer(a)) && AllTell(texts, LaidAll(xs))
    ensures AllGive(texts, xs)
  {
    hide GoodAnswer, Laid, Tells, Gives;
    forall i | 0 <= i < |texts| ensures Gives(texts[i], xs[i]) { LaidTells(texts[i], xs[i]); }
  }

  /** Dots and semicolons in an alias cannot be told from those between. */
  predicate Unambiguous(a: Answer) { a.Alias? ==> Without(a.target, 0x2E) && Without(a.target, 0x3B) }

  /** Round trip: every response with plain names, written byte by byte, is decoded to the addresses and names written,
      alone or behind a length prefix. */
  lemma WrittenReadsBack(id: nat, flags: nat, others: seq<Byte>, qs: seq<Question>, xs: seq<Answer>)
    requires Writable(id, flags, others, qs, xs) && flags >= 0x8000 && qs != [] && xs != []
    requires forall a <- xs :: Unambiguous(a)
    ensures var m := Message(id, flags, others, qs, xs);
            && GivesBack(Answers(m, false), ShownOf(xs))
            && (|m| < 65536 ==> GivesBack(Answers(Framed(m), true), ShownOf(xs)))
  {
    hide Message, GoodQuestion, GoodAnswer, ResponseAt, Answers, Unambiguous, Reads, GivesBack, Framed;
    var m := Message(id, flags, others, qs, xs);
    MessageStands(id, flags, others, qs, xs);
    AllReadable(xs);
    AnswersReadBack(m, false, Names(qs), LaidAll(xs));
    ToldIsShown(xs);
    ReadsGives(Answers(m, false), ShownOf(xs));
    if |m| < 65536 {
      AllPlain(qs, xs);
      UncompressedIsFramed(m, Names(qs), LaidAll(xs));
    }
  }

  lemma AllReadable(xs: seq<Answer>)
    requires forall a <- xs :: GoodAnswer(a) && Unambiguous(a)
    ensures forall rr <- LaidAll(xs) :: Readable(rr)
  {
    hide Without, GoodAnswer, Laid, Readable, Unambiguous;
    forall rr | rr in LaidAll(xs) ensures Readable(rr) {
      var i :| 0 <= i < |LaidAll(xs)| && LaidAll(xs)[i] == rr;
      OneReadable(xs[i]);
    }
  }

  lemma OneReadable(a: Answer)
    requires GoodAnswer(a) && Unambiguous(a)
    ensures Readable(Laid(a))
  {
    hide Without, AllPrintable, Dotted, EncodeName;
  }

  lemma AllPlain(qs: seq<Question>, xs: seq<Answer>)
    requires (forall q <- qs :: GoodQuestion(q)) && forall a <- xs :: GoodAnswer(a)
    ensures Uncompressed(Names(qs), LaidAll(xs))
  {
    hide GoodQuestion, GoodAnswer, Laid, NameAsked, PlainRR;
    forall i | 0 <= i < |qs| ensures Names(qs)[i].hops == 0 { AskedIsPlain(qs[i]); }
    forall i | 0 <= i < |xs| ensures PlainRR(LaidAll(xs)[i]) { LaidIsPlain(xs[i]); }
  }

  lemma AskedIsPlain(q: Question)
    requires GoodQuestion(q)
    ensures NameAsked(q).hops == 0
  {
  }

  lemma LaidIsPlain(a: Answer)
    requires GoodAnswer(a)
    ensures PlainRR(Laid(a))
  {
    hide AllPrintable, Dotted, EncodeName;
  }

  lemma ReadsGives(answers: string, shown: seq<Answer>)
    requires (forall a <- shown :: GoodAnswer(a)) && Reads(answers, LaidAll(shown))
    ensures GivesBack(answers, shown)
  {
    hide GoodAnswer, Laid, AllTell, AllGive, Join, Parts;
    if shown != [] {
      var n := |Parts(answers, ';')|;
      assert LaidAll(shown)[..n] == LaidAll(shown[..n]);
      TellsGives(Parts(answers, ';'), shown[..n]);
    }
  }

  // ---------------------------------------------------------------- queries

  /** The type in the tail of a question. */
  function Asked(q: Question): nat
    requires GoodQuestion(q)
  {
    var high: nat, low: nat := q.tail[0], q.tail[1];
    high * 256 + low
  }

  /** What follows the first question. */
  function MoreQuestions(qs: seq<Question>): (rest: seq<Byte>)
    requires qs != [] && (forall q <- qs :: GoodQuestion(q)) && GoodQuestion(qs[0])
    ensures WriteQuestions(qs) == WriteQuestion(qs[0]) + rest
  {
    WriteQuestions(qs[1..])
  }

  lemma TailWord(before: seq<Byte>, q: Question, after: seq<Byte>)
    requires GoodQuestion(q)
    ensures var data := before + (q.tail + after); |data| >= |before| + 4 && Word16(data, |before|) == Asked(q)
  {
    var data := before + (q.tail + after);
    assert data[|before|] == q.tail[0] && data[|before| + 1] == q.tail[1];
  }

  lemma FirstIsAsked(head: seq<Byte>, q: Question, after: seq<Byte>)
    requires GoodQuestion(q) && q.name != [] && |head| == 12 && HasQueryHeader(head + WriteQuestion(q) + after, false)
    ensures AskedAt(head + WriteQuestion(q) + after, false, q.name, |EncodeName(q.name)|)
    ensures QueryOf(head + WriteQuestion(q) + after, false) == Some(Query(Dotted(q.name), Asked(q)))
  {
    hide Word16, EncodeName, AllPrintable, Dotted, NameAt, QueryOf, HasQueryHeader, Asked;
    var data, name := head + WriteQuestion(q) + after, EncodeName(q.name);
    assert data == head + name + (q.tail + after);
    EncodedNameIsLaid(head, q.name, q.tail + after);
    TailWord(head + name, q, after);
    LaidQueryIsDecoded(data, false, q.name, |name|);
  }

  /** A written query is decoded to the labels of its first question, with dots between them, and its type. */
  lemma WrittenQueryReadsBack(id: nat, flags: nat, others: seq<Byte>, qs: seq<Question>)
    requires Writable(id, flags, others, qs, []) && flags < 0x8000 && qs != [] && GoodQuestion(qs[0])
    requires qs[0].name != [] && Without(qs[0].name, 0x2E)
    ensures var r := QueryOf(Message(id, flags, others, qs, []), false);
            r.Some? && NameOf(r.value.name, qs[0].name) && r.value.qtype == Asked(qs[0])
  {
    hide Word16, WriteQuestions, WriteQuestion, Header, GoodQuestion, AskedAt, NameOf, Without, QueryOf, Dotted,
         EncodeName;
    var q, m := qs[0], Message(id, flags, others, qs, []);
    var head, rest := Header(id, flags, |qs|, 0, others), MoreQuestions(qs);
    HeaderStands(id, flags, |qs|, 0, others, WriteQuestions(qs));
    assert m == head + WriteQuestions(qs) == head + WriteQuestion(q) + rest;
    FirstIsAsked(head, q, rest);
    DottedDenotes(q.name);
  }

  // ---------------------------------------------------------------- compressed names

  /** Two bytes that point to an offset of the message make the name that is laid out there (section 4.1.4 of
      RFC 1035). */
  lemma PointerStands(before: seq<Byte>, target: nat, after: seq<Byte>, labels: seq<seq<Byte>>, hops: nat, width: nat)
    requires target < 16384
    requires NameAt(before + [0xC0 + target / 256, target % 256] + after, target, labels, hops, width)
    ensures NameAt(before + [0xC0 + target / 256, target % 256] + after, |before|, labels, hops + 1, 2)
  {
    var data := before + [0xC0 + target / 256, target % 256] + after;
    assert data[|before|] == 0xC0 + target / 256 && data[|before| + 1] == target % 256;
    assert (0xC0 + target / 256) % 64 == target / 256;
    assert Target(data[|before|], data[|before| + 1]) == target;
  }
}
