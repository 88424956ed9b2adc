/** What the texts of the response decoder mean, by readers of their own: dotted decimal numbers,
    colon-separated hexadecimal groups, labels between dots, answers between semicolons. */
module DnsAddresses {
  import opened Text
  import opened DnsNames
  import opened DnsMessages
  import JsonFields
  import JsonNumbers
  import JsonPrinter

  // ---------------------------------------------------------------- taking texts apart

  /** The pieces between the separators. */
  function Parts(text: string, separator: char): (r: seq<string>)
    ensures r != []
  {
    if text == "" then [""]
    else
      var rest := Parts(text[1..], separator);
      if text[0] == separator then [""] + rest else [[text[0]] + rest[0]] + rest[1..]
  }

  predicate Free(text: string, separator: char) { separator !in text }

  lemma {:induction false} OnePart(a: string, separator: char)
    requires Free(a, separator)
    ensures Parts(a, separator) == [a]
  {
    if a != "" {
      assert a[0] in a;
      OnePart(a[1..], separator);
      assert a == [a[0]] + a[1..];
    }
  }

  lemma {:induction false} FirstPart(a: string, separator: char, rest: string)
    requires Free(a, separator)
    ensures Parts(a + [separator] + rest, separator) == [a] + Parts(rest, separator)
  {
    var text := a + [separator] + rest;
    if a == "" {
      assert text[0] == separator && text[1..] == rest;
    } else {
      assert a[0] in a;
      assert text[0] == a[0] && text[1..] == a[1..] + [separator] + rest;
      FirstPart(a[1..], separator, rest);
      assert a == [a[0]] + a[1..];
    }
  }

  lemma JoinLast(texts: seq<string>, text: string, separator: string)
    requires texts != []
    ensures Join(texts + [text], separator) == Join(texts, separator) + separator + text
  {
    assert (texts + [text])[..|texts|] == texts;
  }

  lemma JoinOne(text: string, separator: string)
    ensures Join([text], separator) == text
  {
  }

  lemma {:induction false} JoinCons(x: string, ys: seq<string>, separator: string)
    ensures Join([x] + ys, separator) == if ys == [] then x else x + separator + Join(ys, separator)
  {
    hide Join;
    if ys == [] {
      assert [x] + ys == [x];
      JoinOne(x, separator);
    } else {
      var front, last := ys[..|ys| - 1], ys[|ys| - 1];
      assert ys == front + [last] && [x] + ys == [x] + front + [last];
      JoinCons(x, front, separator);
      JoinLast([x] + front, last, separator);
      if front == [] { JoinOne(last, separator); } else { JoinLast(front, last, separator); }
    }
  }

  /** Joined pieces that do not hold the separator are taken apart again. */
  lemma {:induction false} JoinedAreParts(texts: seq<string>, separator: char)
    requires texts != [] && forall t <- texts :: Free(t, separator)
    ensures Parts(Join(texts, [separator]), separator) == texts
  {
    hide Free, Parts, Join;
    var x, ys := texts[0], texts[1..];
    assert texts == [x] + ys && x in texts;
    JoinCons(x, ys, [separator]);
    if ys == [] {
      OnePart(x, separator);
    } else {
      JoinedAreParts(ys, separator);
      FirstPart(x, separator, Join(ys, [separator]));
    }
  }

  // ---------------------------------------------------------------- dotted decimal numbers

  /** A decimal numeral, without leading zeros, of the byte. */
  predicate NumeralOf(text: string, b: Byte) {
    && 1 <= |text| <= 3 && (forall i :: 0 <= i < |text| ==> JsonFields.IsDigit(text[i]))
    && (|text| > 1 ==> text[0] != '0') && JsonFields.NumberOf(text) == b
  }

  /** Four numerals between dots, of the bytes in order. */
  predicate DottedOf(text: string, b: seq<Byte>) {
    var parts := Parts(text, '.');
    |parts| == |b| == 4 && forall i :: 0 <= i < 4 ==> NumeralOf(parts[i], b[i])
  }

  lemma {:induction false} NoLeadingZero(n: nat)
    ensures JsonNumbers.Decimal(n) != "" && (n > 0 ==> JsonNumbers.Decimal(n)[0] != '0')
  {
    if n >= 10 { NoLeadingZero(n / 10); }
  }

  lemma ByteNumeral(b: Byte)
    ensures NumeralOf(JsonNumbers.Decimal(b), b) && Free(JsonNumbers.Decimal(b), '.')
  {
    hide JsonNumbers.Decimal;
    JsonNumbers.DecimalDenotes(b);
    DecimalLength(b);
    NoLeadingZero(b);
    ZeroIsShort();
  }

  lemma ZeroIsShort()
    ensures |JsonNumbers.Decimal(0)| == 1
  {
  }

  /** The text of an address record denotes its four bytes. */
  lemma Ipv4Denotes(b: seq<Byte>)
    requires |b| == 4
    ensures DottedOf(Ipv4(b), b)
  {
    hide Parts, Free, NumeralOf, JsonNumbers.Decimal;
    var d0, d1, d2, d3 := JsonNumbers.Decimal(b[0]), JsonNumbers.Decimal(b[1]), JsonNumbers.Decimal(b[2]),
      JsonNumbers.Decimal(b[3]);
    ByteNumeral(b[0]);
    ByteNumeral(b[1]);
    ByteNumeral(b[2]);
    ByteNumeral(b[3]);
    assert Ipv4(b) == d0 + ['.'] + (d1 + ['.'] + (d2 + ['.'] + d3));
    FirstPart(d0, '.', d1 + ['.'] + (d2 + ['.'] + d3));
    FirstPart(d1, '.', d2 + ['.'] + d3);
    FirstPart(d2, '.', d3);
    OnePart(d3, '.');
  }

  // ---------------------------------------------------------------- hexadecimal groups

  predicate IsLowerHex(c: char) { '0' <= c <= '9' || 'a' <= c <= 'f' }

  /** Four lower-case hexadecimal digits of the two bytes, the high one first. */
  predicate GroupOf(text: string, high: Byte, low: Byte) {
    && |text| == 4 && (forall i :: 0 <= i < 4 ==> IsLowerHex(text[i]))
    && JsonFields.HexCode(text) == Some(high * 256 + low)
  }

  predicate GroupsOf(groups: seq<string>, b: seq<Byte>) {
    |b| == 2 * |groups| && forall i :: 0 <= i < |groups| ==> GroupOf(groups[i], b[2 * i], b[2 * i + 1])
  }

  lemma LowerHex(n: nat)
    requires n < 16
    ensures IsLowerHex(JsonPrinter.HexDigit(n)) && JsonFields.HexValue(JsonPrinter.HexDigit(n)) == Some(n)
  {
  }

  lemma GroupDenotes(high: Byte, low: Byte)
    ensures GroupOf(HexByte(high) + HexByte(low), high, low) && Free(HexByte(high) + HexByte(low), ':')
  {
    hide JsonPrinter.HexDigit, JsonFields.HexValue;
    LowerHex(high / 16);
    LowerHex(high % 16);
    LowerHex(low / 16);
    LowerHex(low % 16);
    var text := HexByte(high) + HexByte(low);
    assert text == [JsonPrinter.HexDigit(high / 16), JsonPrinter.HexDigit(high % 16), JsonPrinter.HexDigit(low / 16),
                    JsonPrinter.HexDigit(low % 16)];
  }

  lemma GroupsCons(group: string, high: Byte, low: Byte, groups: seq<string>, b: seq<Byte>)
    requires GroupOf(group, high, low) && GroupsOf(groups, b)
    ensures GroupsOf([group] + groups, [high, low] + b)
  {
    hide GroupOf;
    var gs, bs: seq<Byte> := [group] + groups, [high, low] + b;
    forall i | 0 <= i < |gs| ensures GroupOf(gs[i], bs[2 * i], bs[2 * i + 1]) {
      if i > 0 {
        assert gs[i] == groups[i - 1] && bs[2 * i] == b[2 * (i - 1)] && bs[2 * i + 1] == b[2 * (i - 1) + 1];
      }
    }
  }

  lemma {:induction false} PairsDenote(b: seq<Byte>)
    requires |b| % 2 == 0 && b != []
    ensures GroupsOf(Parts(HexPairs(b), ':'), b)
    decreases |b|
  {
    hide HexByte, Parts, Free, GroupOf, GroupsOf;
    var group := HexByte(b[0]) + HexByte(b[1]);
    GroupDenotes(b[0], b[1]);
    if |b| == 2 {
      OnePart(group, ':');
      NoGroups();
      GroupsCons(group, b[0], b[1], [], []);
      assert [b[0], b[1]] + [] == b && [group] + [] == [group];
    } else {
      PairsDenote(b[2..]);
      FirstPart(group, ':', HexPairs(b[2..]));
      assert HexPairs(b) == group + [':'] + HexPairs(b[2..]);
      GroupsCons(group, b[0], b[1], Parts(HexPairs(b[2..]), ':'), b[2..]);
      assert [b[0], b[1]] + b[2..] == b;
    }
  }

  lemma NoGroups()
    ensures GroupsOf([], [])
  {
  }

  /** The text of an IPv6 address record denotes its sixteen bytes, in eight groups. */
  lemma Ipv6Denotes(b: seq<Byte>)
    requires |b| == 16
    ensures |Parts(Ipv6(b), ':')| == 8 && GroupsOf(Parts(Ipv6(b), ':'), b)
  {
    hide HexPairs, Parts;
    PairsDenote(b);
  }

  // ---------------------------------------------------------------- labels between dots

  /** A name is the text of its labels, one after the other between dots; the empty text is the root. */
  predicate NameOf(text: string, labels: seq<seq<Byte>>) {
    if labels == [] then text == ""
    else
      var parts := Parts(text, '.');
      && |parts| == |labels|
      && forall i :: 0 <= i < |labels| ==>
           && |parts[i]| == |labels[i]| && forall j :: 0 <= j < |labels[i]| ==> parts[i][j] as nat == labels[i][j]
  }

  /** No label holds the byte. */
  predicate Without(labels: seq<seq<Byte>>, b: Byte) { forall part <- labels :: b !in part }

  lemma LabelFree(part: seq<Byte>, b: Byte)
    requires b !in part
    ensures Free(LabelText(part), b as char)
  {
    forall c | c in LabelText(part) ensures c != b as char {
      var i :| 0 <= i < |LabelText(part)| && LabelText(part)[i] == c;
      assert part[i] in part;
    }
  }

  /** The dots are put between the labels and nowhere else. */
  lemma DottedDenotes(labels: seq<seq<Byte>>)
    requires Without(labels, 0x2E)
    ensures NameOf(Dotted(labels), labels)
  {
    hide Parts, Free, Join;
    var texts := LabelTexts(labels);
    if labels == [] {
      assert texts == [];
      JoinNothingBy(".");
    } else {
      forall t | t in texts ensures Free(t, '.') {
        var i :| 0 <= i < |texts| && texts[i] == t;
        LabelFree(labels[i], 0x2E);
      }
      JoinedAreParts(texts, '.');
      assert Parts(Join(texts, "."), '.') == texts;
    }
  }

  lemma JoinNothingBy(separator: string)
    ensures Join([], separator) == ""
  {
  }

  // ---------------------------------------------------------------- what a response tells

  /** Address records with data of the right size and alias records. */
  predicate IsTold(rr: RR) {
    (rr.rtype == 1 && |rr.rdata| == 4) || (rr.rtype == 28 && |rr.rdata| == 16) || rr.rtype == 5
  }

  function Told(rrs: seq<RR>): seq<RR> {
    if rrs == [] then [] else (if IsTold(rrs[0]) then [rrs[0]] else []) + Told(rrs[1..])
  }

  /** The text names the kind of the record and denotes its data. */
  predicate Tells(text: string, rr: RR) {
    if rr.rtype == 1 then |text| >= 2 && text[..2] == "A:" && DottedOf(text[2..], rr.rdata)
    else if rr.rtype == 28 then
      |text| >= 5 && text[..5] == "AAAA:" && |Parts(text[5..], ':')| == 8 && GroupsOf(Parts(text[5..], ':'), rr.rdata)
    else rr.rtype == 5 && |text| >= 6 && text[..6] == "CNAME:" && NameOf(text[6..], rr.target.labels)
  }

  /** The labels of the alias hold neither a dot nor a semicolon. */
  predicate Readable(rr: RR) {
    rr.rtype == 5 ==> Without(rr.target.labels, 0x2E) && Without(rr.target.labels, 0x3B)
  }

  lemma Tagged(tag: string, text: string)
    ensures tag + text != "" ==> |tag + text| > 0
    ensures (tag + text)[..|tag|] == tag && (tag + text)[|tag|..] == text
  {
  }

  lemma TagsAre()
    ensures |"A:"| == 2 && |"AAAA:"| == 5 && |"CNAME:"| == 6
  {
  }

  lemma SaysTells(rr: RR)
    requires Readable(rr)
    ensures IsTold(rr) ==> Says(rr) != "" && Tells(Says(rr), rr)
    ensures !IsTold(rr) ==> Says(rr) == ""
  {
    hide Ipv4, Ipv6, Dotted, DottedOf, GroupsOf, NameOf, Parts, Without;
    TagsAre();
    if rr.rtype == 1 && |rr.rdata| == 4 {
      Tagged("A:", Ipv4(rr.rdata));
      Ipv4Denotes(rr.rdata);
    } else if rr.rtype == 28 && |rr.rdata| == 16 {
      Tagged("AAAA:", Ipv6(rr.rdata));
      Ipv6Denotes(rr.rdata);
    } else if rr.rtype == 5 {
      Tagged("CNAME:", Dotted(rr.target.labels));
      DottedDenotes(rr.target.labels);
    }
  }

  predicate AllTell(texts: seq<string>, rrs: seq<RR>) {
    |texts| == |rrs| && forall i :: 0 <= i < |texts| ==> Tells(texts[i], rrs[i])
  }

  lemma {:induction false} AllSayTells(rrs: seq<RR>)
    requires forall rr <- rrs :: Readable(rr)
    ensures AllTell(AllSay(rrs), Told(rrs))
  {
    hide Says, IsTold, Readable, Tells;
    if rrs != [] {
      assert rrs[0] in rrs;
      SaysTells(rrs[0]);
      AllSayTells(rrs[1..]);
    }
  }

  // ---------------------------------------------------------------- answers between semicolons

  lemma FreeTwo(a: string, b: string, c: char)
    ensures Free(a, c) && Free(b, c) ==> Free(a + b, c)
  {
  }

  lemma {:induction false} JoinFree(texts: seq<string>, separator: string, c: char)
    requires Free(separator, c) && forall t <- texts :: Free(t, c)
    ensures Free(Join(texts, separator), c)
  {
    hide Free;
    if texts == [] {
      NothingFree(c);
    } else {
      var front, last := texts[..|texts| - 1], texts[|texts| - 1];
      assert last in texts;
      JoinFree(front, separator, c);
      FreeTwo(Join(front, separator), separator, c);
      FreeTwo(Join(front, separator) + separator, last, c);
    }
  }

  lemma NothingFree(c: char)
    ensures Free("", c)
  {
  }

  /** Neither digits nor dots nor colons. */
  predicate AddressText(text: string) { forall c <- text :: IsLowerHex(c) || c == '.' || c == ':' }

  lemma AddressTwo(a: string, b: string)
    ensures AddressText(a) && AddressText(b) ==> AddressText(a + b)
  {
  }

  lemma ByteAddress(b: Byte)
    ensures AddressText(JsonNumbers.Decimal(b)) && AddressText(HexByte(b)) && AddressText(".") && AddressText(":")
  {
    hide JsonNumbers.Decimal;
    JsonNumbers.DecimalDenotes(b);
    LowerHex(b / 16);
    LowerHex(b % 16);
  }

  lemma Ipv4Address(b: seq<Byte>)
    requires |b| == 4
    ensures AddressText(Ipv4(b))
  {
    hide AddressText, JsonNumbers.Decimal;
    var d0, d1, d2, d3 := JsonNumbers.Decimal(b[0]), JsonNumbers.Decimal(b[1]), JsonNumbers.Decimal(b[2]),
      JsonNumbers.Decimal(b[3]);
    ByteAddress(b[0]);
    ByteAddress(b[1]);
    ByteAddress(b[2]);
    ByteAddress(b[3]);
    AddressTwo(d0, ".");
    AddressTwo(d0 + ".", d1);
    AddressTwo(d0 + "." + d1, ".");
    AddressTwo(d0 + "." + d1 + ".", d2);
    AddressTwo(d0 + "." + d1 + "." + d2, ".");
    AddressTwo(d0 + "." + d1 + "." + d2 + ".", d3);
  }

  lemma {:induction false} PairsAddress(b: seq<Byte>)
    requires |b| % 2 == 0
    ensures AddressText(HexPairs(b))
    decreases |b|
  {
    hide HexByte;
    if b != [] {
      ByteAddress(b[0]);
      ByteAddress(b[1]);
      AddressTwo(HexByte(b[0]), HexByte(b[1]));
      if |b| > 2 {
        PairsAddress(b[2..]);
        AddressTwo(HexByte(b[0]) + HexByte(b[1]), ":");
        AddressTwo(HexByte(b[0]) + HexByte(b[1]) + ":", HexPairs(b[2..]));
      }
    }
  }

  lemma AddressFree(text: string)
    requires AddressText(text)
    ensures Free(text, ';')
  {
  }

  lemma TagsFree()
    ensures Free("A:", ';') && Free("AAAA:", ';') && Free("CNAME:", ';') && Free(".", ';') && Free("", ';')
  {
  }

  lemma DottedFree(labels: seq<seq<Byte>>)
    requires Without(labels, 0x3B)
    ensures Free(Dotted(labels), ';')
  {
    hide Free, Join;
    var texts := LabelTexts(labels);
    forall t | t in texts ensures Free(t, ';') {
      var i :| 0 <= i < |texts| && texts[i] == t;
      LabelFree(labels[i], 0x3B);
    }
    TagsFree();
    JoinFree(texts, ".", ';');
  }

  lemma SaysFree(rr: RR)
    requires Readable(rr)
    ensures Free(Says(rr), ';')
  {
    hide Ipv4, Ipv6, HexPairs, Dotted, Free, Without, AddressText;
    TagsFree();
    if rr.rtype == 1 && |rr.rdata| == 4 {
      Ipv4Address(rr.rdata);
      AddressFree(Ipv4(rr.rdata));
      FreeTwo("A:", Ipv4(rr.rdata), ';');
    } else if rr.rtype == 28 && |rr.rdata| == 16 {
      Ipv6Address(rr.rdata);
      AddressFree(Ipv6(rr.rdata));
      FreeTwo("AAAA:", Ipv6(rr.rdata), ';');
    } else if rr.rtype == 5 {
      DottedFree(rr.target.labels);
      FreeTwo("CNAME:", Dotted(rr.target.labels), ';');
    }
  }

  lemma Ipv6Address(b: seq<Byte>)
    requires |b| == 16
    ensures AddressText(Ipv6(b))
  {
    hide HexPairs, AddressText;
    PairsAddress(b);
  }

  lemma {:induction false} AllSayFree(rrs: seq<RR>)
    requires forall rr <- rrs :: Readable(rr)
    ensures forall t <- AllSay(rrs) :: Free(t, ';')
  {
    hide Says, Readable, Free;
    if rrs != [] {
      assert rrs[0] in rrs;
      SaysFree(rrs[0]);
      AllSayFree(rrs[1..]);
    }
  }

  /** The output is what the records tell, in order: all of them, or 16, or as
      many as it takes to pass 2048 characters. */
  predicate Reads(answers: string, told: seq<RR>) {
    if told == [] then answers == ""
    else
      var shown := Parts(answers, ';');
      && |shown| <= |told| && |shown| <= 16 && AllTell(shown, told[..|shown|])
      && (|shown| == |told| || |shown| == 16 || |answers| > 2048)
      && forall n :: 0 <= n < |shown| ==> |Join(shown[..n], ";")| <= 2048
  }

  /** For every laid-out response: taking the output apart at the semicolons gives the addresses and names of its
      records. */
  lemma AnswersReadBack(data: seq<Byte>, tcp: bool, qs: seq<WireName>, rrs: seq<RR>)
    requires ResponseAt(data, tcp, qs, rrs) && forall rr <- rrs :: Readable(rr)
    ensures Reads(Answers(data, tcp), Told(rrs))
  {
    hide ResponseAt, Answers, Join, AllSay, Told, Readable, Parts, Free, Tells, Cut;
    ResponseReadsBack(data, tcp, qs, rrs);
    AllSayTells(rrs);
    AllSayFree(rrs);
    var texts := AllSay(rrs);
    var k: nat :| IsCut(texts, k) && Answers(data, tcp) == Join(texts[..k], ";");
    if k == 0 {
      assert texts[..0] == [];
      JoinNothingBy(";");
    } else {
      CutReads(texts, k, Answers(data, tcp), Told(rrs));
    }
  }

  lemma CutReads(texts: seq<string>, k: nat, answers: string, told: seq<RR>)
    requires 0 < k <= |texts| && IsCut(texts, k) && answers == Join(texts[..k], ";")
    requires AllTell(texts, told) && forall t <- texts :: Free(t, ';')
    ensures Reads(answers, told)
  {
    hide Join, Free, Tells, Parts;
    var shown := texts[..k];
    forall t | t in shown ensures Free(t, ';') { assert t in texts; }
    JoinedAreParts(shown, ';');
    assert Parts(answers, ';') == shown;
    forall n | 0 <= n < k ensures |Join(shown[..n], ";")| <= 2048 { assert shown[..n] == texts[..n]; }
  }

  /** Address records are told whatever the names beside them hold. */
  predicate AddressesTell(texts: seq<string>, rrs: seq<RR>) {
    |texts| == |rrs| && forall i :: 0 <= i < |texts| && rrs[i].rtype != 5 ==> Tells(texts[i], rrs[i])
  }

  lemma {:induction false} AllSayAddresses(rrs: seq<RR>)
    ensures AddressesTell(AllSay(rrs), Told(rrs))
  {
    hide Tells, Ipv4, Ipv6, Dotted, Without;
    if rrs != [] {
      if rrs[0].rtype == 5 { TagsAre(); } else { SaysTells(rrs[0]); }
      AllSayAddresses(rrs[1..]);
    }
  }

  /** For every laid-out response without exception: each address shown denotes the data of its record. */
  lemma EveryAddressReadsBack(data: seq<Byte>, tcp: bool, qs: seq<WireName>, rrs: seq<RR>) returns (texts: seq<string>)
    requires ResponseAt(data, tcp, qs, rrs)
    ensures Answers(data, tcp) == Join(texts, ";")
    ensures |texts| <= |Told(rrs)| && AddressesTell(texts, Told(rrs)[..|texts|])
    ensures |texts| == |Told(rrs)| || |texts| == 16 || |Answers(data, tcp)| > 2048
  {
    hide ResponseAt, Answers, Join, AllSay, Told, Tells, Cut;
    ResponseReadsBack(data, tcp, qs, rrs);
    AllSayAddresses(rrs);
    var k: nat :| IsCut(AllSay(rrs), k) && Answers(data, tcp) == Join(AllSay(rrs)[..k], ";");
    texts := AllSay(rrs)[..k];
  }
}
