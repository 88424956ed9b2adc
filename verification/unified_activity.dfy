/** What counts as a repeat of an activity: the same place, processes and
    details, whatever the times and the record ids. */
module UnifiedActivity {
  import opened Text
  import opened JsonFields
  import opened JsonNumbers
  import opened Hashing
  import opened Evidence
  import opened Separated
  import opened EvidenceGraph
  import opened UnifiedSpec
  import opened UnifiedPlaces
  import opened UnifiedHistory
  import opened UnifiedInvariant
  import opened UnifiedTheorems
  import opened UnifiedRuns
  import opened UnifiedMatches
  import opened UnifiedDrain
  import opened UnifiedIdentity

  // ---------------------------------------------------------------- keyed values, one after the other

  /** A key with the value found under it, if any. */
  datatype Detail = Detail(key: string, value: Option<string>)

  function Listed(ds: seq<Detail>): string {
    if ds == [] then ""
    else (if ds[0].value.Some? then "|" + ds[0].key + "=" + ds[0].value.value else "") + Listed(ds[1..])
  }

  predicate KeyText(key: string) { BarFree(key) && '=' !in key }

  /** Keys are plain and differ; values hold no bar. */
  predicate Tellable(ds: seq<Detail>) {
    && (forall d <- ds :: KeyText(d.key) && (d.value.Some? ==> BarFree(d.value.value)))
    && forall i, j :: 0 <= i < j < |ds| ==> ds[i].key != ds[j].key
  }

  predicate SameKeys(ds: seq<Detail>, es: seq<Detail>) {
    |ds| == |es| && forall i :: 0 <= i < |ds| ==> ds[i].key == es[i].key
  }

  /** The key that the text begins with, if it begins with one. */
  predicate BeginsWith(text: string, key: string) {
    |text| > |key| + 1 && text[0] == '|' && text[1..1 + |key|] == key && text[1 + |key|] == '='
  }

  lemma FirstEquals(text: string, k: string)
    requires BeginsWith(text, k) && KeyText(k)
    ensures text[1 + |k|] == '=' && forall j :: 1 <= j < 1 + |k| ==> text[j] != '='
  {
    forall j | 1 <= j < 1 + |k| ensures text[j] != '=' {
      assert text[1..1 + |k|][j - 1] == text[j] && k[j - 1] in k;
    }
  }

  lemma OneBeginning(text: string, k: string, l: string)
    requires KeyText(k) && KeyText(l)
    ensures BeginsWith(text, k) && BeginsWith(text, l) ==> k == l
  {
    if BeginsWith(text, k) && BeginsWith(text, l) {
      FirstEquals(text, k);
      FirstEquals(text, l);
      assert |k| == |l|;
    }
  }

  lemma ListedParts(ds: seq<Detail>)
    requires ds != []
    ensures Listed(ds)
         == if ds[0].value.Some? then "|" + ds[0].key + "=" + ds[0].value.value + Listed(ds[1..]) else Listed(ds[1..])
  {
    if ds[0].value.None? { assert "" + Listed(ds[1..]) == Listed(ds[1..]); }
  }

  /** A list begins with one of its keys, or is empty. */
  lemma {:induction false} ListBegins(ds: seq<Detail>)
    ensures Listed(ds) == "" || exists i :: 0 <= i < |ds| && BeginsWith(Listed(ds), ds[i].key)
  {
    hide BeginsWith, Listed;
    if ds == [] {
      NothingListed();
    } else {
      ListedParts(ds);
      if ds[0].value.Some? {
        BeginsAtOnce(ds[0].key, ds[0].value.value, Listed(ds[1..]));
      } else {
        ListBegins(ds[1..]);
        if Listed(ds[1..]) != "" {
          var i :| 0 <= i < |ds[1..]| && BeginsWith(Listed(ds[1..]), ds[1..][i].key);
          assert ds[1..][i] == ds[i + 1];
        }
      }
    }
  }

  lemma NothingListed()
    ensures Listed([]) == ""
  {
  }

  lemma BeginsAtOnce(key: string, value: string, rest: string)
    ensures BeginsWith("|" + key + "=" + value + rest, key)
  {
    var text := "|" + key + "=" + value + rest;
    assert text[1..1 + |key|] == key;
  }

  lemma NoValueFirst(ds: seq<Detail>)
    requires ds != [] && ds[0].value.None?
    ensures Listed(ds) == Listed(ds[1..])
  {
  }

  /** So it shows whether the first key has a value. */
  lemma FirstPresent(ds: seq<Detail>)
    requires Tellable(ds) && ds != []
    ensures BeginsWith(Listed(ds), ds[0].key) <==> ds[0].value.Some?
  {
    hide BeginsWith, KeyText;
    if ds[0].value.Some? {
      BeginsAtOnce(ds[0].key, ds[0].value.value, Listed(ds[1..]));
    } else {
      var text := Listed(ds[1..]);
      NoValueFirst(ds);
      ListBegins(ds[1..]);
      EmptyBeginsWithNothing(ds[0].key);
      assert ds[0] in ds;
      forall i | 0 <= i < |ds[1..]|
        ensures BeginsWith(text, ds[0].key) && BeginsWith(text, ds[1..][i].key) ==> ds[0].key == ds[1..][i].key
        ensures ds[0].key != ds[1..][i].key
      {
        assert ds[1..][i] == ds[i + 1] && ds[i + 1] in ds;
        OneBeginning(text, ds[0].key, ds[1..][i].key);
      }
    }
  }

  lemma EmptyBeginsWithNothing(key: string)
    ensures !BeginsWith("", key)
  {
  }

  /** A value ends where the next key, or the text, begins. */
  lemma ValueEnds(v: string, rest: string, w: string, rest': string)
    requires BarFree(v) && BarFree(w) && v + rest == w + rest'
    requires (rest == "" || rest[0] == '|') && (rest' == "" || rest'[0] == '|')
    ensures v == w && rest == rest'
  {
    var x, y := rest + "|", rest' + "|";
    assert v + x == v + rest + "|" && w + y == w + rest' + "|";
    assert x == "|" + x[1..] && y == "|" + y[1..];
    assert v + x == v + "|" + x[1..] && w + y == w + "|" + y[1..];
    SplitAtBar(v, x[1..], w, y[1..]);
    assert rest == x[..|x| - 1] && rest' == y[..|y| - 1];
  }

  lemma ListStarts(ds: seq<Detail>)
    ensures Listed(ds) == "" || Listed(ds)[0] == '|'
  {
    ListBegins(ds);
  }

  lemma TailTellable(ds: seq<Detail>)
    requires Tellable(ds) && ds != []
    ensures Tellable(ds[1..])
  {
    hide KeyText;
    assert forall i :: 0 <= i < |ds[1..]| ==> ds[1..][i] == ds[i + 1];
  }

  lemma StripKey(key: string, a: string, b: string)
    requires "|" + key + "=" + a == "|" + key + "=" + b
    ensures a == b
  {
    var n := |key| + 2;
    assert a == ("|" + key + "=" + a)[n..] && b == ("|" + key + "=" + b)[n..];
  }

  /** The text tells the values of all keys. */
  lemma {:induction false} ListedIsInjective(ds: seq<Detail>, es: seq<Detail>)
    requires Tellable(ds) && Tellable(es) && SameKeys(ds, es) && Listed(ds) == Listed(es)
    ensures ds == es
    decreases |ds|
  {
    hide BeginsWith, KeyText;
    if ds != [] {
      FirstPresent(ds);
      FirstPresent(es);
      TailTellable(ds);
      TailTellable(es);
      assert SameKeys(ds[1..], es[1..]);
      if ds[0].value.Some? {
        var v, w, rest, rest' := ds[0].value.value, es[0].value.value, Listed(ds[1..]), Listed(es[1..]);
        assert Listed(ds) == "|" + ds[0].key + "=" + (v + rest);
        assert Listed(es) == "|" + ds[0].key + "=" + (w + rest');
        StripKey(ds[0].key, v + rest, w + rest');
        ListStarts(ds[1..]);
        ListStarts(es[1..]);
        assert ds[0] in ds && es[0] in es;
        ValueEnds(v, rest, w, rest');
      } else {
        NoValueFirst(ds);
        NoValueFirst(es);
      }
      ListedIsInjective(ds[1..], es[1..]);
      assert ds == [ds[0]] + ds[1..] && es == [es[0]] + es[1..];
    }
  }

  lemma {:induction false} ListedTwo(ds: seq<Detail>, es: seq<Detail>)
    ensures Listed(ds + es) == Listed(ds) + Listed(es)
  {
    if ds == [] {
      assert ds + es == es;
    } else {
      assert (ds + es)[1..] == ds[1..] + es;
      ListedTwo(ds[1..], es);
    }
  }

  // ---------------------------------------------------------------- the details of a record

  const WORD_KEYS: seq<string> := [
    "process_name", "image", "exe", "action", "event_type", "local_ip", "remote_ip", "src_ip", "dst_ip", "protocol",
    "direction", "module_path", "mount_point", "device_id", "command_line"]
  const COUNT_KEYS: seq<string> := [
    "local_port", "remote_port", "src_port", "dst_port", "transport_protocol", "creator_pid", "target_pid"]

  /** Two records tell of the same activity: the same endpoint, kind, processes and path, and the same details of names,
      addresses, ports and devices; times and record ids do not matter. */
  predicate SameActivity(a: Record, b: Record) {
    && a.endpoint == b.endpoint && a.recordType == b.recordType && a.pid == b.pid && a.parentPid == b.parentPid
    && a.path == b.path
    && (forall k <- WORD_KEYS :: ExtractString(a.rawLine, k) == ExtractString(b.rawLine, k))
    && forall k <- COUNT_KEYS :: ExtractNumber(a.rawLine, k) == ExtractNumber(b.rawLine, k)
  }

  function Words(line: string, keys: seq<string>): (ds: seq<Detail>)
    ensures |ds| == |keys|
    ensures forall i :: 0 <= i < |ds| ==> ds[i] == Detail(keys[i], ExtractString(line, keys[i]))
  {
    seq(|keys|, i requires 0 <= i < |keys| => Detail(keys[i], ExtractString(line, keys[i])))
  }

  function CountText(n: Option<int>): Option<string> {
    match n case Some(v) => Some(Printed(v)) case None => None
  }

  function Counts(line: string, keys: seq<string>): (ds: seq<Detail>)
    ensures |ds| == |keys|
    ensures forall i :: 0 <= i < |ds| ==> ds[i] == Detail(keys[i], CountText(ExtractNumber(line, keys[i])))
  {
    seq(|keys|, i requires 0 <= i < |keys| => Detail(keys[i], CountText(ExtractNumber(line, keys[i]))))
  }

  lemma {:induction false} WordsText(line: string, keys: seq<string>)
    ensures StringFieldsText(line, keys) == Listed(Words(line, keys))
  {
    hide ExtractString;
    if keys != [] {
      WordsText(line, keys[1..]);
      assert Words(line, keys)[1..] == Words(line, keys[1..]);
    }
  }

  lemma {:induction false} CountsText(line: string, keys: seq<string>)
    ensures NumberFieldsText(line, keys) == Listed(Counts(line, keys))
  {
    hide ExtractNumber, Printed;
    if keys != [] {
      CountsText(line, keys[1..]);
      assert Counts(line, keys)[1..] == Counts(line, keys[1..]);
    }
  }

  lemma SameLists()
    ensures STRING_FIELDS == WORD_KEYS && NUMBER_FIELDS == COUNT_KEYS
  {
  }

  /** Processes and path, then the details. */
  function AllDetails(r: Record): seq<Detail> {
    [Detail("pid", Some(Printed(r.pid))), Detail("ppid", Some(Printed(r.parentPid))), Detail("path", Some(r.path))]
    + Words(r.rawLine, WORD_KEYS) + Counts(r.rawLine, COUNT_KEYS)
  }

  lemma ThreeListed(pid: string, ppid: string, path: string)
    ensures Listed([Detail("pid", Some(pid)), Detail("ppid", Some(ppid)), Detail("path", Some(path))])
         == "|pid=" + pid + "|ppid=" + ppid + "|path=" + path
  {
    var a, b, c := Detail("pid", Some(pid)), Detail("ppid", Some(ppid)), Detail("path", Some(path));
    assert [a, b, c][1..] == [b, c] && [b, c][1..] == [c] && [c][1..] == [];
    assert Listed([c]) == "|" + "path" + "=" + path + "";
    assert Listed([b, c]) == "|" + "ppid" + "=" + ppid + Listed([c]);
    assert Listed([a, b, c]) == "|" + "pid" + "=" + pid + Listed([b, c]);
    assert "|" + "pid" + "=" == "|pid=" && "|" + "ppid" + "=" == "|ppid=" && "|" + "path" + "=" == "|path=";
  }

  lemma KeyParts(r: Record)
    ensures SemanticKey(r) == r.endpoint + "|" + (r.recordType + Listed(AllDetails(r)))
  {
    hide Printed, StringFieldsText, NumberFieldsText, Listed, Words, Counts, WORD_KEYS, COUNT_KEYS;
    SameLists();
    WordsText(r.rawLine, WORD_KEYS);
    CountsText(r.rawLine, COUNT_KEYS);
    var pid, ppid := Printed(r.pid), Printed(r.parentPid);
    var three := [Detail("pid", Some(pid)), Detail("ppid", Some(ppid)), Detail("path", Some(r.path))];
    ThreeListed(pid, ppid, r.path);
    ListedTwo(three + Words(r.rawLine, WORD_KEYS), Counts(r.rawLine, COUNT_KEYS));
    ListedTwo(three, Words(r.rawLine, WORD_KEYS));
    Together(r.endpoint, r.recordType, pid, ppid, r.path, Listed(Words(r.rawLine, WORD_KEYS)),
             Listed(Counts(r.rawLine, COUNT_KEYS)));
  }

  lemma Together(e: string, t: string, pid: string, ppid: string, path: string, x: string, y: string)
    ensures e + "|" + t + "|pid=" + pid + "|ppid=" + ppid + "|path=" + path + x + y
         == e + "|" + (t + ("|pid=" + pid + "|ppid=" + ppid + "|path=" + path + x + y))
  {
  }

  /** The same activity has the same fingerprint, whatever else the records hold. */
  lemma SameActivitySameKey(a: Record, b: Record)
    requires SameActivity(a, b)
    ensures SemanticKey(a) == SemanticKey(b)
    ensures SemanticFingerprint(a, false) == SemanticFingerprint(b, false)
  {
    hide ExtractString, ExtractNumber, Printed, Listed, WORD_KEYS, COUNT_KEYS, SemanticKey, HexHash;
    KeyParts(a);
    KeyParts(b);
    assert Words(a.rawLine, WORD_KEYS) == Words(b.rawLine, WORD_KEYS);
    assert Counts(a.rawLine, COUNT_KEYS) == Counts(b.rawLine, COUNT_KEYS);
  }

  // ---------------------------------------------------------------- the keys differ

  /** The place of a key among all the keys. */
  function Rank(k: string): nat
    requires |k| >= 3
  {
    if |k| == 3 then (if k[0] == 'p' then 0 else 5)
    else if |k| == 4 then (if k[1] == 'p' then 1 else 2)
    else if |k| == 5 then 4
    else if |k| == 6 then (if k[0] == 'a' then 6 else if k[0] == 's' then 10 else 11)
    else if |k| == 8 then
      (if k[0] == 'l' then 8 else if k[0] == 'p' then 12 else if k[0] == 's' then 20 else 21)
    else if |k| == 9 then (if k[0] == 'r' then 9 else if k[1] == 'i' then 13 else 16)
    else if |k| == 10 then (if k[0] == 'e' then 7 else if k[0] == 'l' then 18 else 24)
    else if |k| == 11 then
      (if k[0] == 'r' then 19 else if k[0] == 'c' then 23 else if k[2] == 'd' then 14 else 15)
    else if |k| == 12 then (if k[0] == 'p' then 3 else 17)
    else 22
  }

  predicate KeyAt(k: string, i: nat) { |k| >= 3 && KeyText(k) && Rank(k) == i }

  lemma ProcessKeys()
    ensures KeyAt("process_name", 3) && KeyAt("image", 4) && KeyAt("exe", 5)
  {
  }

  lemma EventKeys()
    ensures KeyAt("action", 6) && KeyAt("event_type", 7)
  {
  }

  lemma AddressKeys()
    ensures KeyAt("local_ip", 8) && KeyAt("remote_ip", 9)
  {
  }

  lemma PacketKeys()
    ensures KeyAt("src_ip", 10) && KeyAt("dst_ip", 11)
  {
  }

  lemma FlowKeys()
    ensures KeyAt("protocol", 12) && KeyAt("direction", 13)
  {
  }

  lemma DeviceKeys()
    ensures KeyAt("module_path", 14) && KeyAt("mount_point", 15)
  {
  }

  lemma OtherKeys()
    ensures KeyAt("device_id", 16) && KeyAt("command_line", 17)
  {
  }

  lemma PortKeys()
    ensures KeyAt("local_port", 18) && KeyAt("remote_port", 19)
  {
  }

  lemma PacketPortKeys()
    ensures KeyAt("src_port", 20) && KeyAt("dst_port", 21)
  {
  }

  lemma TransportKey()
    ensures KeyAt("transport_protocol", 22)
  {
  }

  lemma PidKeys()
    ensures KeyAt("creator_pid", 23) && KeyAt("target_pid", 24)
  {
  }

  lemma WordKeys()
    ensures |WORD_KEYS| == 15 && forall i :: 0 <= i < 15 ==> KeyAt(WORD_KEYS[i], 3 + i)
  {
    hide KeyAt;
    ProcessKeys();
    EventKeys();
    AddressKeys();
    PacketKeys();
    FlowKeys();
    DeviceKeys();
    OtherKeys();
  }

  lemma CountKeys()
    ensures |COUNT_KEYS| == 7 && forall i :: 0 <= i < 7 ==> KeyAt(COUNT_KEYS[i], 18 + i)
  {
    hide KeyAt;
    PortKeys();
    PacketPortKeys();
    TransportKey();
    PidKeys();
  }

  lemma FirstKeys()
    ensures KeyAt("pid", 0) && KeyAt("ppid", 1) && KeyAt("path", 2)
  {
  }

  /** Nothing in the record's texts can be taken for a separator. */
  predicate Legible(r: Record) {
    && BarFree(r.endpoint) && BarFree(r.recordType) && BarFree(r.path)
    && forall k <- WORD_KEYS :: var v := ExtractString(r.rawLine, k); v.Some? ==> BarFree(v.value)
  }

  lemma DetailKeyAt(r: Record, i: nat)
    requires i < |AllDetails(r)|
    ensures |AllDetails(r)| == 25
    ensures KeyAt(AllDetails(r)[i].key, i)
    ensures 3 <= i < 18 ==> AllDetails(r)[i] == Detail(WORD_KEYS[i - 3], ExtractString(r.rawLine, WORD_KEYS[i - 3]))
    ensures 18 <= i < 25
        ==> AllDetails(r)[i] == Detail(COUNT_KEYS[i - 18], CountText(ExtractNumber(r.rawLine, COUNT_KEYS[i - 18])))
  {
    hide KeyAt, ExtractString, ExtractNumber, Printed, WORD_KEYS, COUNT_KEYS;
    assert |WORD_KEYS| == 15 by { WordKeys(); }
    assert |COUNT_KEYS| == 7 by { CountKeys(); }
    if i < 3 {
      FirstKeys();
    } else if i < 18 {
      WordKeys();
    } else {
      CountKeys();
    }
  }

  lemma CountTextIsBarFree(n: Option<int>)
    ensures CountText(n).Some? ==> BarFree(CountText(n).value)
  {
    hide BarFree, Printed;
    if n.Some? { PrintedIsBarFree(n.value); }
  }

  lemma DetailsAreTellable(r: Record)
    requires Legible(r)
    ensures Tellable(AllDetails(r))
  {
    hide ExtractString, ExtractNumber, Printed, WORD_KEYS, COUNT_KEYS, AllDetails, KeyText, BarFree, Legible, Rank,
         CountText;
    var ds := AllDetails(r);
    forall i | 0 <= i < |ds|
      ensures KeyText(ds[i].key) && (ds[i].value.Some? ==> BarFree(ds[i].value.value))
    {
      DetailKeyAt(r, i);
      DetailIsBarFree(r, i);
    }
    forall i, j | 0 <= i < j < |ds| ensures ds[i].key != ds[j].key {
      DetailKeyAt(r, i);
      DetailKeyAt(r, j);
    }
  }

  lemma DetailIsBarFree(r: Record, i: nat)
    requires Legible(r) && i < |AllDetails(r)|
    ensures var v := AllDetails(r)[i].value; v.Some? ==> BarFree(v.value)
  {
    hide ExtractString, ExtractNumber, Printed, WORD_KEYS, COUNT_KEYS, KeyAt, BarFree, CountText;
    DetailKeyAt(r, i);
    if i < 3 {
      PrintedIsBarFree(r.pid);
      PrintedIsBarFree(r.parentPid);
    } else if i < 18 {
      assert |WORD_KEYS| == 15 by { WordKeys(); }
      assert WORD_KEYS[i - 3] in WORD_KEYS;
    } else {
      assert |COUNT_KEYS| == 7 by { CountKeys(); }
      CountTextIsBarFree(ExtractNumber(r.rawLine, COUNT_KEYS[i - 18]));
    }
  }

  lemma CountTextIsInjective(m: Option<int>, n: Option<int>)
    requires CountText(m) == CountText(n)
    ensures m == n
  {
    hide Printed;
    if m.Some? { PrintedIsInjective(m.value, n.value); }
  }

  lemma SameDetails(a: Record, b: Record)
    requires AllDetails(a) == AllDetails(b)
    ensures a.pid == b.pid && a.parentPid == b.parentPid && a.path == b.path
    ensures forall k <- WORD_KEYS :: ExtractString(a.rawLine, k) == ExtractString(b.rawLine, k)
    ensures forall k <- COUNT_KEYS :: ExtractNumber(a.rawLine, k) == ExtractNumber(b.rawLine, k)
  {
    hide ExtractString, ExtractNumber, Printed, WORD_KEYS, COUNT_KEYS, KeyAt, CountText, Words, Counts;
    assert AllDetails(a)[0] == AllDetails(b)[0] && AllDetails(a)[1] == AllDetails(b)[1]
        && AllDetails(a)[2] == AllDetails(b)[2];
    PrintedIsInjective(a.pid, b.pid);
    PrintedIsInjective(a.parentPid, b.parentPid);
    hide AllDetails;
    DetailKeyAt(a, 0);
    DetailKeyAt(b, 0);
    forall k | k in WORD_KEYS ensures ExtractString(a.rawLine, k) == ExtractString(b.rawLine, k) {
      assert |WORD_KEYS| == 15 by { WordKeys(); }
      var i :| 0 <= i < |WORD_KEYS| && WORD_KEYS[i] == k;
      DetailKeyAt(a, i + 3);
      DetailKeyAt(b, i + 3);
    }
    forall k | k in COUNT_KEYS ensures ExtractNumber(a.rawLine, k) == ExtractNumber(b.rawLine, k) {
      assert |COUNT_KEYS| == 7 by { CountKeys(); }
      var i :| 0 <= i < |COUNT_KEYS| && COUNT_KEYS[i] == k;
      DetailKeyAt(a, i + 18);
      DetailKeyAt(b, i + 18);
      CountTextIsInjective(ExtractNumber(a.rawLine, k), ExtractNumber(b.rawLine, k));
    }
  }

  /** The key tells activities apart: two legible records have one key exactly when they tell of the same activity. */
  lemma SemanticKeyExactly(a: Record, b: Record)
    requires Legible(a) && Legible(b)
    ensures SemanticKey(a) == SemanticKey(b) <==> SameActivity(a, b)
  {
    hide ExtractString, ExtractNumber, Printed, WORD_KEYS, COUNT_KEYS, AllDetails, SemanticKey, Listed, HexHash,
         KeyText;
    if SameActivity(a, b) { SameActivitySameKey(a, b); }
    if SemanticKey(a) == SemanticKey(b) {
      KeyParts(a);
      KeyParts(b);
      var x, y := Listed(AllDetails(a)), Listed(AllDetails(b));
      SplitAtBar(a.endpoint, a.recordType + x, b.endpoint, b.recordType + y);
      ListStarts(AllDetails(a));
      ListStarts(AllDetails(b));
      ValueEnds(a.recordType, x, b.recordType, y);
      DetailsAreTellable(a);
      DetailsAreTellable(b);
      AllSameKeys(a, b);
      ListedIsInjective(AllDetails(a), AllDetails(b));
      SameDetails(a, b);
    }
  }

  lemma AllSameKeys(a: Record, b: Record)
    ensures SameKeys(AllDetails(a), AllDetails(b))
  {
    hide ExtractString, ExtractNumber, Printed, WORD_KEYS, COUNT_KEYS, CountText;
  }

  // ---------------------------------------------------------------- what a run counts as a repeat

  lemma {:induction false} AcceptedFingerprints(sorter: seq<Candidate> -> seq<Candidate>, events: seq<Event>)
    ensures forall a <- AcceptedIn(sorter, events) :: a.fingerprint == SemanticFingerprint(a.record, a.operational)
  {
    hide Ingest, KeptRecord, SemanticFingerprint;
    if events != [] { AcceptedFingerprints(sorter, events[..|events| - 1]); }
  }

  lemma PendingFingerprint(sorter: seq<Candidate> -> seq<Candidate>, events: seq<Event>, g: Group, m: nat)
    requires IsSorter(sorter) && g in Run(sorter, events).0.groups && !g.operationalOnly && m < |g.members|
    ensures g.members[m].fingerprint == HexHash(SemanticKey(g.members[m].first))
  {
    hide Run, AcceptedIn, GroupBacked, Inv, IsSorter, HexHash, SemanticKey, ExactIdentity;
    var h := EveryRunKeeps(sorter, events);
    AcceptedFingerprints(sorter, events);
    KnownIsBacked(Run(sorter, events).0, h, g);
    BackedFingerprint(g, h.evidence[g.id], h.accepted, m);
  }

  lemma BackedFingerprint(g: Group, e: seq<seq<nat>>, acc: seq<Arrival>, m: nat)
    requires GroupBacked(g, e, acc) && m < |g.members| && !g.operationalOnly
    requires forall a <- acc :: a.fingerprint == SemanticFingerprint(a.record, a.operational)
    ensures g.members[m].fingerprint == SemanticFingerprint(g.members[m].first, false)
  {
    hide SpanningTree, TimesBacked, SemanticFingerprint;
    assert MemberBacked(g.members[m], e[m], acc);
    assert e[m][0] in e[m];
    assert acc[e[m][0]] in acc;
  }

  /** A pending story tells of the activity, last seen within five seconds. */
  predicate JustSeen(g: Group, m: nat, a: Arrival) {
    && !g.operationalOnly && m < |g.members| && SameActivity(g.members[m].first, a.record)
    && g.members[m].lastSeen - 5000 <= a.eventMs <= g.members[m].lastSeen + 5000
  }

  /** After every run an accepted activity record that tells of an activity just
      seen is counted into a member, whatever its own time and record id. */
  lemma SameActivityIsCounted(sorter: seq<Candidate> -> seq<Candidate>, events: seq<Event>, endpoint: string,
                              line: string, wall: int)
    requires IsSorter(sorter)
    requires var s := Run(sorter, events).0; var a := Observe(endpoint, line, wall);
             && Ingest(sorter, s, endpoint, line, wall).1 && !a.operational
             && exists g <- s.groups, m: nat :: JustSeen(g, m, a)
    ensures var s := Run(sorter, events).0;
            exists i: nat, m: nat ::
              CountedInto(s, Ingest(sorter, s, endpoint, line, wall).0, i, m, Observe(endpoint, line, wall))
  {
    hide Ingest, IsSorter, Run, Observe, SameActivity, Repeated, CountedInto, Ascending, Relates, Outcome, TopStory,
         OpensAlone;
    var s, a := Run(sorter, events).0, Observe(endpoint, line, wall);
    RunIsAscending(sorter, events);
    LineIsPlaced(sorter, s, endpoint, line, wall);
    var g, m: nat :| g in s.groups && JustSeen(g, m, a);
    PendingFingerprint(sorter, events, g, m);
    ObservedFingerprint(endpoint, line, wall);
    JustSeenIsRepeated(g, m, a);
  }

  lemma ObservedFingerprint(endpoint: string, line: string, wall: int)
    ensures var a := Observe(endpoint, line, wall); a.fingerprint == SemanticFingerprint(a.record, a.operational)
  {
  }

  lemma JustSeenIsRepeated(g: Group, m: nat, a: Arrival)
    requires JustSeen(g, m, a) && g.members[m].fingerprint == SemanticFingerprint(g.members[m].first, false)
    requires a.fingerprint == SemanticFingerprint(a.record, false)
    ensures RepeatedIn(g, a)
  {
    hide SemanticFingerprint, SemanticKey, WORD_KEYS, COUNT_KEYS;
    SameActivitySameKey(g.members[m].first, a.record);
    assert Repeated(g.members[m], a);
  }
}
