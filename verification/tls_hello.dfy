/** A ClientHello as a browser writes it, byte by byte (section 7.4.1.2 of RFC 5246,
    section 3 of RFC 6066), and the server name that the decoder finds in it. */
module TlsHello {
  import opened Text
  import opened DnsNames
  import opened DnsMessages
  import opened DnsPackets
  import opened TlsSni

  /** A server name extension, or one of another kind with any content. */
  datatype Part = Names(names: seq<ServerName>) | Opaque(kind: nat, content: seq<Byte>)

  function WriteName(n: ServerName): seq<Byte>
    requires |n.name| < 65536
  {
    [n.kind] + Two(|n.name|) + n.name
  }

  function WriteNames(names: seq<ServerName>): seq<Byte>
    requires forall n <- names :: |n.name| < 65536
  {
    if names == [] then [] else WriteName(names[0]) + WriteNames(names[1..])
  }

  predicate GoodPart(p: Part) {
    match p
    case Names(names) => (forall n <- names :: |n.name| < 65536) && |WriteNames(names)| < 65534
    case Opaque(kind, content) => 0 < kind < 65536 && |content| < 65536
  }

  function Content(p: Part): seq<Byte>
    requires GoodPart(p)
  {
    match p
    case Names(names) => Two(|WriteNames(names)|) + WriteNames(names)
    case Opaque(_, content) => content
  }

  function KindOf(p: Part): nat { match p case Names(_) => 0 case Opaque(kind, _) => kind }

  lemma ContentSize(p: Part)
    requires GoodPart(p)
    ensures KindOf(p) < 65536 && |Content(p)| < 65536
  {
  }

  function WritePart(p: Part): (r: seq<Byte>)
    requires GoodPart(p)
    ensures |r| >= 4
  {
    ContentSize(p);
    Two(KindOf(p)) + Two(|Content(p)|) + Content(p)
  }

  function WriteParts(ps: seq<Part>): seq<Byte>
    requires forall p <- ps :: GoodPart(p)
  {
    if ps == [] then [] else WritePart(ps[0]) + WriteParts(ps[1..])
  }

  /** What stands in front of the extensions: `record` is the version and length of the record, `message` the length and
      version of the handshake message. */
  datatype Opening = Opening(record: seq<Byte>, message: seq<Byte>, random: seq<Byte>, session: seq<Byte>,
                             ciphers: seq<Byte>, compression: seq<Byte>)

  predicate GoodOpening(o: Opening) {
    && |o.record| == 4 && |o.message| == 5 && |o.random| == 32
    && |o.session| < 256 && |o.ciphers| < 65536 && |o.compression| < 256
  }

  function WriteStart(o: Opening): (r: seq<Byte>)
    requires GoodOpening(o)
    ensures |r| == 43
  {
    [0x16] + o.record + [0x01] + o.message + o.random
  }

  function WriteOpening(o: Opening): seq<Byte>
    requires GoodOpening(o)
  {
    WriteStart(o) + ([|o.session|] + o.session) + (Two(|o.ciphers|) + o.ciphers) + ([|o.compression|] + o.compression)
  }

  predicate GoodHello(o: Opening, ps: seq<Part>) {
    GoodOpening(o) && (forall p <- ps :: GoodPart(p)) && |WriteParts(ps)| < 65536
  }

  function WriteHello(o: Opening, ps: seq<Part>): seq<Byte>
    requires GoodHello(o, ps)
  {
    WriteOpening(o) + Two(|WriteParts(ps)|) + WriteParts(ps)
  }

  // ---------------------------------------------------------------- what stands in it

  lemma {:induction false} NamesStand(before: seq<Byte>, names: seq<ServerName>, after: seq<Byte>)
    requires forall n <- names :: |n.name| < 65536
    ensures var data := before + WriteNames(names) + after;
            NamesAt(data, |before|, names, |before + WriteNames(names)|)
    decreases |names|
  {
    hide Word16, WriteName, NamesAt;
    var data := before + WriteNames(names) + after;
    if names == [] {
      NoNamesAt(data, |before|);
    } else {
      var n, rest := names[0], WriteNames(names[1..]);
      assert n in names;
      NameStandsAt(before, n, rest + after);
      NamesStand(before + WriteName(n), names[1..], after);
      assert data == before + WriteName(n) + (rest + after) == (before + WriteName(n)) + rest + after;
      OneMoreName(data, |before|, names, |before + WriteNames(names)|);
    }
  }

  lemma NoNamesAt(data: seq<Byte>, at: nat)
    requires at <= |data|
    ensures NamesAt(data, at, [], at)
  {
  }

  lemma OneMoreName(data: seq<Byte>, at: nat, names: seq<ServerName>, end: nat)
    requires names != [] && end <= |data|
    requires var n := |names[0].name|;
             && at + 3 + n <= end && data[at] == names[0].kind && Word16(data, at + 1) == n
             && data[at + 3..at + 3 + n] == names[0].name && NamesAt(data, at + 3 + n, names[1..], end)
    ensures NamesAt(data, at, names, end)
  {
    hide Word16;
  }

  lemma NameStandsAt(before: seq<Byte>, n: ServerName, after: seq<Byte>)
    requires |n.name| < 65536
    ensures var data, size := before + WriteName(n) + after, |n.name|;
            && |data| >= |before| + 3 + size && |before + WriteName(n)| == |before| + 3 + size
            && data[|before|] == n.kind && Word16(data, |before| + 1) == size
            && data[|before| + 3..|before| + 3 + size] == n.name
  {
    hide Word16;
    var data := before + WriteName(n) + after;
    assert data == (before + [n.kind]) + Two(|n.name|) + (n.name + after);
    WordStands(before + [n.kind], |n.name|, n.name + after);
  }

  function LaidPart(p: Part): Extension
    requires GoodPart(p)
  {
    Extension(KindOf(p), |Content(p)|, if p.Names? then p.names else [])
  }

  function LaidParts(ps: seq<Part>): (r: seq<Extension>)
    requires forall p <- ps :: GoodPart(p)
    ensures |r| == |ps| && forall i :: 0 <= i < |r| ==> r[i] == LaidPart(ps[i])
  {
    seq(|ps|, i requires 0 <= i < |ps| => LaidPart(ps[i]))
  }

  lemma PartStands(before: seq<Byte>, p: Part, after: seq<Byte>, end: nat)
    requires GoodPart(p) && |before + WritePart(p)| <= end <= |before + WritePart(p) + after|
    ensures ExtensionAt(before + WritePart(p) + after, |before|, LaidPart(p), end)
    ensures |before + WritePart(p)| == |before| + 4 + |Content(p)|
  {
    hide Word16, NamesAt, WriteNames, Two;
    ContentSize(p);
    TwoBytes(KindOf(p));
    TwoBytes(|Content(p)|);
    var data := before + WritePart(p) + after;
    assert data == before + Two(KindOf(p)) + (Two(|Content(p)|) + Content(p) + after);
    WordStands(before, KindOf(p), Two(|Content(p)|) + Content(p) + after);
    assert data == (before + Two(KindOf(p))) + Two(|Content(p)|) + (Content(p) + after);
    WordStands(before + Two(KindOf(p)), |Content(p)|, Content(p) + after);
    if p.Names? {
      var head, list := before + Two(KindOf(p)) + Two(|Content(p)|), WriteNames(p.names);
      TwoBytes(|list|);
      assert data == head + Two(|list|) + (list + after);
      WordStands(head, |list|, list + after);
      assert data == (head + Two(|list|)) + list + after;
      NamesStand(head + Two(|list|), p.names, after);
    }
  }

  lemma {:induction false} PartsStand(before: seq<Byte>, ps: seq<Part>, after: seq<Byte>)
    requires forall p <- ps :: GoodPart(p)
    ensures var data := before + WriteParts(ps) + after;
            ExtensionsAt(data, |before|, LaidParts(ps), |before + WriteParts(ps)|)
    decreases |ps|
  {
    hide ExtensionAt, GoodPart, LaidPart, WritePart, Content;
    if ps != [] {
      var first, rest := WritePart(ps[0]), WriteParts(ps[1..]);
      var data := before + WriteParts(ps) + after;
      PartStands(before, ps[0], rest + after, |before + WriteParts(ps)|);
      PartSize(ps[0]);
      PartsStand(before + first, ps[1..], after);
      assert data == before + first + (rest + after) == (before + first) + rest + after;
      assert LaidParts(ps)[1..] == LaidParts(ps[1..]);
    }
  }

  lemma PartSize(p: Part)
    requires GoodPart(p)
    ensures LaidPart(p).size == |Content(p)|
  {
  }

  lemma OpeningStands(o: Opening, after: seq<Byte>)
    requires GoodOpening(o)
    ensures var data := WriteOpening(o) + after;
            var s := 44 + |o.session|; var c := s + 2 + |o.ciphers|;
            && |WriteOpening(o)| == c + 1 + |o.compression| && data[0] == 0x16 && data[5] == 0x01
            && data[43] == |o.session| && Word16(data, s) == |o.ciphers| && data[c] == |o.compression|
  {
    hide Word16, Two, WriteStart;
    TwoBytes(|o.ciphers|);
    var start, data := WriteStart(o), WriteOpening(o) + after;
    var head := start + ([|o.session|] + o.session);
    assert start[0] == 0x16 && start[5] == 0x01 by { StartBytes(o); }
    assert data[0] == start[0] && data[5] == start[5];
    assert data == head + Two(|o.ciphers|) + (o.ciphers + ([|o.compression|] + o.compression) + after);
    WordStands(head, |o.ciphers|, o.ciphers + ([|o.compression|] + o.compression) + after);
    assert |head| == 44 + |o.session| && head[43] == |o.session| && data[43] == head[43];
  }

  lemma StartBytes(o: Opening)
    requires GoodOpening(o)
    ensures WriteStart(o)[0] == 0x16 && WriteStart(o)[5] == 0x01
  {
  }

  lemma HelloStands(o: Opening, ps: seq<Part>, after: seq<Byte>)
    requires GoodHello(o, ps)
    ensures var data := WriteHello(o, ps) + after;
            HelloAt(data, |o.session|, |o.ciphers|, |o.compression|, LaidParts(ps), |WriteHello(o, ps)|)
  {
    hide Word16, Two, ExtensionsAt, GoodPart, WriteParts, WriteOpening;
    var open, parts := WriteOpening(o), WriteParts(ps);
    TwoBytes(|parts|);
    var data := WriteHello(o, ps) + after;
    assert data == open + (Two(|parts|) + parts + after);
    OpeningStands(o, Two(|parts|) + parts + after);
    assert data == open + Two(|parts|) + (parts + after);
    WordStands(open, |parts|, parts + after);
    assert data == (open + Two(|parts|)) + parts + after;
    PartsStand(open + Two(|parts|), ps, after);
  }

  // ---------------------------------------------------------------- the server name

  /** All the server names written, in order. */
  function AllNames(ps: seq<Part>): seq<ServerName> {
    if ps == [] then [] else (if ps[0].Names? then ps[0].names else []) + AllNames(ps[1..])
  }

  /** The i-th name is a host name with a text, and the first such one. */
  predicate FirstIs(names: seq<ServerName>, i: nat) {
    && i < |names| && names[i].kind == 0 && names[i].name != []
    && forall j :: 0 <= j < i ==> names[j].kind != 0 || names[j].name == []
  }

  predicate Spells(text: string, name: seq<Byte>) {
    |text| == |name| && forall i :: 0 <= i < |text| ==> text[i] as nat == name[i]
  }

  /** The text is that of the first host name, and there is none exactly when no name is one. */
  ghost predicate FirstNamed(r: Option<string>, names: seq<ServerName>) {
    match r
    case Some(text) => exists i: nat :: FirstIs(names, i) && Spells(text, names[i].name)
    case None => forall i :: 0 <= i < |names| ==> names[i].kind != 0 || names[i].name == []
  }

  lemma {:induction false} FirstOfNames(names: seq<ServerName>)
    ensures FirstNamed(FirstHostName(names), names)
  {
    hide LabelText;
    if names != [] {
      if IsHost(names[0]) {
        assert FirstIs(names, 0) && Spells(LabelText(names[0].name), names[0].name);
      } else {
        FirstOfNames(names[1..]);
        FirstLater(FirstHostName(names[1..]), [names[0]], names[1..]);
        assert names == [names[0]] + names[1..];
      }
    }
  }

  lemma FirstLater(r: Option<string>, skipped: seq<ServerName>, names: seq<ServerName>)
    requires FirstNamed(r, names) && forall n <- skipped :: n.kind != 0 || n.name == []
    ensures FirstNamed(r, skipped + names)
  {
    hide Spells;
    var all := skipped + names;
    assert forall i :: 0 <= i < |skipped| ==> all[i] == skipped[i] && skipped[i] in skipped;
    assert forall i :: 0 <= i < |names| ==> all[|skipped| + i] == names[i];
    if r.Some? {
      var i: nat :| FirstIs(names, i) && Spells(r.value, names[i].name);
      forall j | 0 <= j < |skipped| + i ensures all[j].kind != 0 || all[j].name == [] {
        if j >= |skipped| { assert all[j] == names[j - |skipped|]; }
      }
      assert FirstIs(all, |skipped| + i);
    } else {
      forall j | 0 <= j < |all| ensures all[j].kind != 0 || all[j].name == [] {
        if j >= |skipped| { assert all[j] == names[j - |skipped|]; }
      }
    }
  }

  lemma FirstEarlier(r: Option<string>, names: seq<ServerName>, more: seq<ServerName>)
    requires FirstNamed(r, names) && r.Some?
    ensures FirstNamed(r, names + more)
  {
    hide Spells;
    var i: nat :| FirstIs(names, i) && Spells(r.value, names[i].name);
    assert FirstIs(names + more, i);
  }

  lemma ShortHasNoHost(p: Part)
    requires GoodPart(p) && p.Names? && |Content(p)| < 5
    ensures p.names == []
  {
    hide Two;
    TwoBytes(|WriteNames(p.names)|);
    if p.names != [] {
      assert p.names[0] in p.names;
      NameSize(p.names[0]);
    }
  }

  lemma NameSize(n: ServerName)
    requires |n.name| < 65536
    ensures |WriteName(n)| >= 3
  {
  }

  lemma {:induction false} FirstOfParts(ps: seq<Part>)
    requires forall p <- ps :: GoodPart(p)
    ensures FirstNamed(FirstHost(LaidParts(ps)), AllNames(ps))
  {
    hide FirstNamed, FirstHostName, GoodPart, Content;
    if ps == [] {
      NothingNamed();
    } else {
      var p, xs := ps[0], LaidParts(ps);
      assert xs[1..] == LaidParts(ps[1..]);
      FirstOfParts(ps[1..]);
      OnePartFirst(p, FirstHost(xs[1..]), AllNames(ps[1..]));
    }
  }

  lemma NothingNamed()
    ensures FirstNamed(None, [])
  {
  }

  lemma OnePartFirst(p: Part, r: Option<string>, more: seq<ServerName>)
    requires GoodPart(p) && FirstNamed(r, more)
    ensures var x := LaidPart(p);
            FirstNamed(if x.kind == 0 && x.size >= 5 && FirstHostName(x.names).Some? then FirstHostName(x.names) else r,
                       (if p.Names? then p.names else []) + more)
  {
    hide FirstHostName, WriteNames, FirstNamed, Content;
    assert [] + more == more;
    if p.Names? {
      FirstOfNames(p.names);
      if |Content(p)| < 5 {
        ShortHasNoHost(p);
      } else if FirstHostName(p.names).Some? {
        FirstEarlier(FirstHostName(p.names), p.names, more);
      } else {
        NoneSkips(p.names);
        FirstLater(r, p.names, more);
      }
    } else {
      OpaqueKind(p);
    }
  }

  lemma OpaqueKind(p: Part)
    requires GoodPart(p) && p.Opaque?
    ensures LaidPart(p).kind != 0
  {
  }

  lemma NoneSkips(names: seq<ServerName>)
    requires FirstNamed(None, names)
    ensures forall n <- names :: n.kind != 0 || n.name == []
  {
  }

  /** For every written ClientHello, whatever follows it: the decoder gives the first host name with
      a text among the server names of all extensions, and nothing exactly when there is none. */
  lemma WrittenHelloIsDecoded(o: Opening, ps: seq<Part>, after: seq<Byte>)
    requires GoodHello(o, ps)
    ensures FirstNamed(SniOf(WriteHello(o, ps) + after), AllNames(ps))
  {
    hide HelloAt, FirstNamed, SniOf, FirstHost, WriteHello, GoodPart, GoodOpening, WriteParts;
    HelloStands(o, ps, after);
    HelloIsDecoded(WriteHello(o, ps) + after, |o.session|, |o.ciphers|, |o.compression|, LaidParts(ps),
                   |WriteHello(o, ps)|);
    FirstOfParts(ps);
  }
}
