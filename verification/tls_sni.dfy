/** `DecodeTlsSni` in NETOWRK ENDPOINT/protocol_decoder.cpp, against the layout of a ClientHello (section 7.4.1.2 of
    RFC 5246) and of the server name extension (section 3 of RFC 6066). */
module TlsSni {
  import opened Text
  import opened DnsNames
  import opened DnsMessages

  const HANDSHAKE: Byte := 0x16
  const CLIENT_HELLO: Byte := 0x01
  /** Record header, handshake header, version and random bytes. */
  const FIXED: nat := 43

  // ---------------------------------------------------------------- the decoder

  datatype Outcome = Found(name: string) | Malformed | Absent

  /** The server names from `at` up to `end`: the first non-empty host name. */
  function ScanNames(data: seq<Byte>, at: nat, end: nat): Outcome
    requires end <= |data|
    decreases end - at
  {
    if at + 3 > end then Absent
    else
      var size := Word16(data, at + 1);
      if at + 3 + size > end then Malformed
      else if data[at] == 0 && size != 0 then Found(LabelText(data[at + 3..at + 3 + size]))
      else ScanNames(data, at + 3 + size, end)
  }

  /** The extensions from `at` up to `end`. */
  function ScanExtensions(data: seq<Byte>, at: nat, end: nat): Option<string>
    requires end <= |data|
    decreases end - at
  {
    if at + 4 > end then None
    else
      var size := Word16(data, at + 2);
      if at + 4 + size > end then None
      else if Word16(data, at) == 0 && size >= 5 then
        var list := Word16(data, at + 4);
        if list + 2 > size then None
        else
          match ScanNames(data, at + 6, at + 6 + list)
          case Found(name) => Some(name)
          case Malformed => None
          case Absent => ScanExtensions(data, at + 4 + size, end)
      else ScanExtensions(data, at + 4 + size, end)
  }

  /** Past a block with a one-byte or two-byte length in front. */
  function Past8(data: seq<Byte>, at: nat): (r: Option<nat>)
    ensures r.Some? ==> at < r.value <= |data|
  {
    if at >= |data| || at + 1 + data[at] > |data| then None else Some(at + 1 + data[at])
  }

  function Past16(data: seq<Byte>, at: nat): (r: Option<nat>)
    ensures r.Some? ==> at < r.value <= |data|
  {
    if at + 2 > |data| || at + 2 + Word16(data, at) > |data| then None else Some(at + 2 + Word16(data, at))
  }

  /** Where the extension block stands, if session id, cipher suites and compression methods can be passed. */
  function ExtensionBlock(data: seq<Byte>): (r: Option<nat>)
    ensures r.Some? ==> r.value <= |data|
  {
    if |data| < FIXED || data[0] != HANDSHAKE || data[5] != CLIENT_HELLO then None
    else
      match Past8(data, FIXED)
      case None => None
      case Some(ciphers) =>
        match Past16(data, ciphers)
        case None => None
        case Some(compression) => Past8(data, compression)
  }

  function Min(a: nat, b: nat): nat { if a < b then a else b }

  /** `DecodeTlsSni`: the server name, or nothing when the call returns false. */
  function SniOf(data: seq<Byte>): Option<string> {
    match ExtensionBlock(data)
    case None => None
    case Some(at) =>
      if at + 2 > |data| then None else ScanExtensions(data, at + 2, Min(|data|, at + 2 + Word16(data, at)))
  }

  // ---------------------------------------------------------------- a laid-out ClientHello

  datatype ServerName = ServerName(kind: Byte, name: seq<Byte>)

  ghost predicate NamesAt(data: seq<Byte>, at: nat, names: seq<ServerName>, end: nat)
    requires end <= |data|
    decreases |names|
  {
    if names == [] then at == end
    else
      var n := |names[0].name|;
      && at + 3 + n <= end && data[at] == names[0].kind && Word16(data, at + 1) == n
      && data[at + 3..at + 3 + n] == names[0].name && NamesAt(data, at + 3 + n, names[1..], end)
  }

  /** An extension; `names` is its content when it is a server name extension. */
  datatype Extension = Extension(kind: nat, size: nat, names: seq<ServerName>)

  /** Only a server name extension of five bytes or more needs a layout: a list length and the names. */
  ghost predicate ExtensionAt(data: seq<Byte>, at: nat, x: Extension, end: nat)
    requires end <= |data|
  {
    && at + 4 + x.size <= end && Word16(data, at) == x.kind && Word16(data, at + 2) == x.size
    && (x.kind == 0 && x.size >= 5 ==>
          Word16(data, at + 4) == x.size - 2 && NamesAt(data, at + 6, x.names, at + 4 + x.size))
  }

  ghost predicate ExtensionsAt(data: seq<Byte>, at: nat, xs: seq<Extension>, end: nat)
    requires end <= |data|
    decreases |xs|
  {
    if xs == [] then at == end
    else ExtensionAt(data, at, xs[0], end) && ExtensionsAt(data, at + 4 + xs[0].size, xs[1..], end)
  }

  /** Session id, cipher suites and compression methods of any content;
      `session`, `ciphers` and `compression` are their sizes. */
  ghost predicate HelloAt(data: seq<Byte>, session: nat, ciphers: nat, compression: nat, xs: seq<Extension>, end: nat) {
    var s := FIXED + 1 + session;
    var c := s + 2 + ciphers;
    var k := c + 1 + compression;
    && k + 2 <= end <= |data| && data[0] == HANDSHAKE && data[5] == CLIENT_HELLO
    && data[FIXED] == session && Word16(data, s) == ciphers && data[c] == compression
    && Word16(data, k) == end - (k + 2) && ExtensionsAt(data, k + 2, xs, end)
  }

  // ---------------------------------------------------------------- what it says

  predicate IsHost(n: ServerName) { n.kind == 0 && n.name != [] }

  function FirstHostName(names: seq<ServerName>): Option<string> {
    if names == [] then None
    else if IsHost(names[0]) then Some(LabelText(names[0].name))
    else FirstHostName(names[1..])
  }

  /** The first non-empty host name of the first server name extension that has one. */
  function FirstHost(xs: seq<Extension>): Option<string> {
    if xs == [] then None
    else if xs[0].kind == 0 && xs[0].size >= 5 && FirstHostName(xs[0].names).Some? then FirstHostName(xs[0].names)
    else FirstHost(xs[1..])
  }

  lemma {:induction false} NamesAreScanned(data: seq<Byte>, at: nat, names: seq<ServerName>, end: nat)
    requires end <= |data| && NamesAt(data, at, names, end)
    ensures ScanNames(data, at, end) == match FirstHostName(names) case None => Absent case Some(name) => Found(name)
    decreases |names|
  {
    hide LabelText, Word16;
    if names != [] { NamesAreScanned(data, at + 3 + |names[0].name|, names[1..], end); }
  }

  lemma {:induction false} ExtensionsAreScanned(data: seq<Byte>, at: nat, xs: seq<Extension>, end: nat)
    requires end <= |data| && ExtensionsAt(data, at, xs, end)
    ensures ScanExtensions(data, at, end) == FirstHost(xs)
    decreases |xs|
  {
    hide Word16, FirstHostName, ScanNames, NamesAt;
    if xs != [] {
      var x := xs[0];
      ExtensionsAreScanned(data, at + 4 + x.size, xs[1..], end);
      if x.kind == 0 && x.size >= 5 { NamesAreScanned(data, at + 6, x.names, at + 4 + x.size); }
    }
  }

  /** For every laid-out ClientHello, whatever surrounds the server name: the decoder gives the first non-empty
      host name, and nothing if there is none. */
  lemma HelloIsDecoded(data: seq<Byte>, session: nat, ciphers: nat, compression: nat, xs: seq<Extension>, end: nat)
    requires HelloAt(data, session, ciphers, compression, xs, end)
    ensures SniOf(data) == FirstHost(xs)
  {
    hide Word16, ExtensionsAt, ScanExtensions, FirstHost;
    ExtensionsAreScanned(data, FIXED + 1 + session + 2 + ciphers + 1 + compression + 2, xs, end);
  }

  // ---------------------------------------------------------------- whatever the input

  /** A host name entry at `at`: its kind, its length, its bytes. */
  predicate EntryAt(data: seq<Byte>, at: nat, name: string) {
    && name != "" && at + 3 + |name| <= |data|
    && data[at] == 0 && Word16(data, at + 1) == |name| && LabelText(data[at + 3..at + 3 + |name|]) == name
  }

  lemma {:induction false} FoundNameIsEntry(data: seq<Byte>, at: nat, end: nat) returns (place: nat)
    requires end <= |data|
    ensures var r := ScanNames(data, at, end); r.Found? ==> EntryAt(data, place, r.name) && at <= place < end
    decreases end - at
  {
    hide LabelText, Word16;
    place := at;
    if at + 3 <= end {
      var size := Word16(data, at + 1);
      if at + 3 + size <= end && !(data[at] == 0 && size != 0) { place := FoundNameIsEntry(data, at + 3 + size, end); }
      else if at + 3 + size <= end { TextIsNotEmpty(data[at + 3..at + 3 + size]); }
    }
  }

  lemma TextIsNotEmpty(b: seq<Byte>)
    ensures |LabelText(b)| == |b|
  {
  }

  lemma {:induction false} FoundIsEntry(data: seq<Byte>, at: nat, end: nat) returns (place: nat)
    requires end <= |data|
    ensures var r := ScanExtensions(data, at, end); r.Some? ==> EntryAt(data, place, r.value)
    decreases end - at
  {
    hide LabelText, Word16, EntryAt, ScanNames;
    place := at;
    if at + 4 <= end {
      var size := Word16(data, at + 2);
      if at + 4 + size <= end {
        if Word16(data, at) == 0 && size >= 5 && Word16(data, at + 4) + 2 <= size {
          place := FoundNameIsEntry(data, at + 6, at + 6 + Word16(data, at + 4));
          if ScanNames(data, at + 6, at + 6 + Word16(data, at + 4)).Absent? {
            place := FoundIsEntry(data, at + 4 + size, end);
          }
        } else {
          place := FoundIsEntry(data, at + 4 + size, end);
        }
      }
    }
  }

  /** Whenever the call succeeds, on any input, the result is the non-empty text of a host name entry of the input:
      a contiguous slice with its own length in front. */
  lemma DecodedIsSlice(data: seq<Byte>) returns (place: nat)
    ensures SniOf(data).Some? ==> EntryAt(data, place, SniOf(data).value)
  {
    hide LabelText, Word16, EntryAt, ScanExtensions, ExtensionBlock;
    place := 0;
    if ExtensionBlock(data).Some? && ExtensionBlock(data).value + 2 <= |data| {
      var at := ExtensionBlock(data).value;
      place := FoundIsEntry(data, at + 2, Min(|data|, at + 2 + Word16(data, at)));
    }
  }

  // ---------------------------------------------------------------- DecodeTlsSni

  method FindHostName(data: seq<Byte>, start: nat, end: nat) returns (r: Outcome)
    requires end <= |data|
    ensures r == ScanNames(data, start, end)
  {
    hide LabelText, Word16;
    var offset: nat := start;
    while offset + 3 <= end
      invariant ScanNames(data, offset, end) == ScanNames(data, start, end)
      decreases end - offset
    {
      var kind := data[offset];
      var size := Word16(data, offset + 1);
      if offset + 3 + size > end { return Malformed; }
      if kind == 0 && size != 0 { return Found(LabelText(data[offset + 3..offset + 3 + size])); }
      offset := offset + 3 + size;
    }
    return Absent;
  }

  method DecodeTlsSni(data: seq<Byte>) returns (r: Option<string>)
    ensures r == SniOf(data)
  {
    hide Word16, ScanNames;
    if |data| < 9 || data[0] != 0x16 || data[5] != 0x01 { return None; }
    var offset: nat := 9;
    if offset + 34 > |data| { return None; }
    offset := offset + 34;
    var past := Past8(data, offset);
    if past == None { return None; }
    past := Past16(data, past.value);
    if past == None { return None; }
    past := Past8(data, past.value);
    if past == None { return None; }
    offset := past.value;
    if offset + 2 > |data| { return None; }
    var end := Min(|data|, offset + 2 + Word16(data, offset));
    r := SearchExtensions(data, offset + 2, end);
  }

  method SearchExtensions(data: seq<Byte>, start: nat, end: nat) returns (r: Option<string>)
    requires end <= |data|
    ensures r == ScanExtensions(data, start, end)
  {
    hide Word16, ScanNames;
    var offset: nat := start;
    while offset + 4 <= end
      invariant ScanExtensions(data, offset, end) == ScanExtensions(data, start, end)
      decreases end - offset
    {
      var kind, size := Word16(data, offset), Word16(data, offset + 2);
      if offset + 4 + size > end { return None; }
      if kind == 0 && size >= 5 {
        var list := Word16(data, offset + 4);
        if list + 2 > size { return None; }
        var found := FindHostName(data, offset + 6, Min(offset + 4 + size, offset + 6 + list));
        if found.Found? { return Some(found.name); }
        if found.Malformed? { return None; }
      }
      offset := offset + 4 + size;
    }
    return None;
  }
}
