/** `DecodeDnsQuery` in NETOWRK ENDPOINT/protocol_decoder.cpp: it accepts exactly the queries whose first question is a
    name without pointers that the response decoder's reader would accept too. */
module DnsQueries {
  import opened Text
  import opened DnsNames
  import opened DnsMessages

  datatype Query = Query(name: string, qtype: nat)

  /** The label loop: the text and the place where it stopped. */
  function Scan(data: seq<Byte>, cursor: nat, name: string, n: nat): Option<Name>
    decreases MAX_STEPS - n
  {
    if n >= MAX_STEPS || cursor >= |data| then Some(Name(name, cursor))
    else if data[cursor] == 0 then Some(Name(name, cursor + 1))
    else
      var size := data[cursor];
      if size > MAX_LABEL || cursor + 1 + size > |data| || !Printable(data[cursor + 1..cursor + 1 + size])
         || |AddLabel(name, data[cursor + 1..cursor + 1 + size])| > MAX_NAME
      then None
      else Scan(data, cursor + 1 + size, AddLabel(name, data[cursor + 1..cursor + 1 + size]), n + 1)
  }

  predicate HasQueryHeader(data: seq<Byte>, tcp: bool) {
    && (tcp ==> |data| >= 2 && Word16(data, 0) <= |data| - 2)
    && Base(tcp) + 12 <= |data| && Word16(data, Base(tcp) + 2) < 0x8000 && Word16(data, Base(tcp) + 4) != 0
  }

  function QueryOf(data: seq<Byte>, tcp: bool): Option<Query> {
    if !HasQueryHeader(data, tcp) then None
    else
      match Scan(data, Base(tcp) + 12, "", 0)
      case None => None
      case Some(r) => if r.text == "" || r.width + 4 > |data| then None else Some(Query(r.text, Word16(data, r.width)))
  }

  // ---------------------------------------------------------------- which names are accepted

  lemma {:induction false} LaidIsScanned(data: seq<Byte>, at: nat, labels: seq<seq<Byte>>, width: nat, name: string,
                                         n: nat)
    requires NameAt(data, at, labels, 0, width) && FitsFrom(name, labels, 0, n)
    ensures Scan(data, at, name, n) == Some(Name(DottedFrom(name, labels), at + width))
    decreases |labels|
  {
    hide AddLabel, Printable;
    if labels != [] {
      var size := |labels[0]|;
      DottedFromGrows(AddLabel(name, labels[0]), labels[1..]);
      TailPrintable(labels);
      LaidIsScanned(data, at + 1 + size, labels[1..], width - 1 - size, AddLabel(name, labels[0]), n + 1);
    }
  }

  /** `n` labels make a text of at least 2n - 1 characters. */
  predicate LongEnough(name: string, n: nat) { n > 0 ==> |name| >= 2 * n - 1 }

  lemma {:induction false} ScannedIsLaid(data: seq<Byte>, at: nat, name: string, n: nat)
    returns (labels: seq<seq<Byte>>, width: nat)
    requires Scan(data, at, name, n).Some? && Scan(data, at, name, n).value.width < |data|
    requires LongEnough(name, n) && |name| <= MAX_NAME
    ensures NameAt(data, at, labels, 0, width) && FitsFrom(name, labels, 0, n)
    decreases MAX_STEPS - n
  {
    hide AddLabel, Printable, FitsFrom, NameAt;
    if data[at] == 0 {
      labels, width := [], 1;
      EndLaid(data, at, name, n);
    } else {
      var size := data[at];
      var part := data[at + 1..at + 1 + size];
      AddedLength(name, part, n);
      var rest, w;
      rest, w := ScannedIsLaid(data, at + 1 + size, AddLabel(name, part), n + 1);
      labels, width := [part] + rest, 1 + size + w;
      LabelLaid(data, at, part, rest, 0, w, name, n);
    }
  }

  lemma AddedLength(name: string, part: seq<Byte>, n: nat)
    requires LongEnough(name, n) && part != []
    ensures LongEnough(AddLabel(name, part), n + 1)
  {
  }

  ghost predicate AskedAt(data: seq<Byte>, tcp: bool, labels: seq<seq<Byte>>, width: nat) {
    && HasQueryHeader(data, tcp) && NameAt(data, Base(tcp) + 12, labels, 0, width)
    && labels != [] && AllPrintable(labels) && |Dotted(labels)| <= 253 && Base(tcp) + 12 + width + 4 <= |data|
  }

  lemma PlainFits(data: seq<Byte>, at: nat, labels: seq<seq<Byte>>, width: nat)
    requires NameAt(data, at, labels, 0, width) && AllPrintable(labels) && |Dotted(labels)| <= 253
    ensures FitsFrom("", labels, 0, 0) && DottedFrom("", labels) == Dotted(labels)
    ensures labels != [] ==> Dotted(labels) != ""
  {
    hide NameAt, FitsFrom, DottedFrom, Dotted, AllPrintable;
    LaidLabels(data, at, labels, 0, width);
    UncompressedIsAcceptable(labels);
    FitsIsAcceptable(labels, 0);
    DottedWhole(labels);
    if labels != [] { DottedNotEmpty(labels); }
  }

  /** Every query for a legal name is decoded to its dotted labels and its type. */
  lemma LaidQueryIsDecoded(data: seq<Byte>, tcp: bool, labels: seq<seq<Byte>>, width: nat)
    requires AskedAt(data, tcp, labels, width)
    ensures QueryOf(data, tcp) == Some(Query(Dotted(labels), Word16(data, Base(tcp) + 12 + width)))
  {
    hide NameAt, FitsFrom, DottedFrom, Dotted, AllPrintable, Scan, HasQueryHeader;
    PlainFits(data, Base(tcp) + 12, labels, width);
    LaidIsScanned(data, Base(tcp) + 12, labels, width, "", 0);
  }

  /** And nothing else is decoded. */
  lemma DecodedQueryIsLaid(data: seq<Byte>, tcp: bool) returns (labels: seq<seq<Byte>>, width: nat)
    requires QueryOf(data, tcp).Some?
    ensures AskedAt(data, tcp, labels, width)
  {
    hide NameAt, FitsFrom, Scan, HasQueryHeader, AllPrintable, Dotted;
    var at := Base(tcp) + 12;
    labels, width := ScannedIsLaid(data, at, "", 0);
    LaidIsScanned(data, at, labels, width, "", 0);
    LaidLabels(data, at, labels, 0, width);
    FitsIsAcceptable(labels, 0);
    DottedWhole(labels);
    assert Acceptable(labels, 0);
  }

  /** The two decoders agree: what a query asks for is what the name reader of the responses reads there. */
  lemma ReadersAgree(data: seq<Byte>, tcp: bool)
    requires QueryOf(data, tcp).Some?
    ensures ReadName(data, Base(tcp) + 12).Some?
            && ReadName(data, Base(tcp) + 12).value.text == QueryOf(data, tcp).value.name
  {
    hide NameAt, Dotted, QueryOf, ReadName, HasQueryHeader, AllPrintable;
    var labels, width := DecodedQueryIsLaid(data, tcp);
    LaidQueryIsDecoded(data, tcp, labels, width);
    LaidLabels(data, Base(tcp) + 12, labels, 0, width);
    UncompressedIsAcceptable(labels);
    LaidNameIsRead(data, Base(tcp) + 12, labels, 0, width);
  }

  // ---------------------------------------------------------------- DecodeDnsQuery

  /** The label loop. */
  method ScanLabels(data: seq<Byte>, start: nat) returns (ok: bool, query: string, offset: nat)
    ensures Scan(data, start, "", 0) == if ok then Some(Name(query, offset)) else None
  {
    hide Printable, AddLabel;
    query, offset := "", start;
    ghost var scanned := Scan(data, start, "", 0);
    var n := 0;
    while n < 128 && offset < |data|
      invariant n <= 128 && Scan(data, offset, query, n) == scanned
      decreases 128 - n
    {
      var size := data[offset];
      if size == 0 { return true, query, offset + 1; }
      if size > 63 || offset + 1 + size > |data| { return false, query, offset; }
      var longer := AppendLabel(data, offset, size, query);
      if longer == None || |longer.value| > 253 { return false, query, offset; }
      offset, query, n := offset + 1 + size, longer.value, n + 1;
    }
    return true, query, offset;
  }

  method DecodeDnsQuery(data: seq<Byte>, tcp: bool) returns (r: Option<Query>)
    ensures r == QueryOf(data, tcp)
  {
    hide Scan, Word16;
    var offset: nat := if tcp then 2 else 0;
    if tcp {
      var length := Read16(data, 0);
      if length == None || length.value > |data| - 2 { return None; }
    }
    if offset + 12 > |data| { return None; }
    if Word16(data, offset + 2) >= 0x8000 || Word16(data, offset + 4) == 0 { return None; }
    var ok, query, end := ScanLabels(data, offset + 12);
    if !ok || query == "" || end + 4 > |data| { return None; }
    return Some(Query(query, Word16(data, end)));
  }
}
