/** CORRELATOR/evidence_envelope.cpp: the envelope stamped in front of every logged line,
    and what a later reader extracts from it. */
module Envelope {
  import opened Text
  import opened JsonFields
  import opened JsonPrinter
  import opened JsonNumbers
  import opened Hashing

  /** The stamped fields, in the order they are written. The session and file names are written unescaped. */
  function Stamp(recordId: nat, session: string, file: string, offset: nat, hash: string): seq<Field> {
    [ Bare("record_id", Decimal(recordId)),
      Quoted("session_id", session),
      Quoted("source_file", file),
      Bare("byte_offset", Decimal(offset)),
      Quoted("content_hash", hash) ]
  }

  /** `WrapWithEvidenceEnvelope`: text that is not an object passes through untouched. */
  function Wrap(json: string, recordId: nat, session: string, file: string, offset: nat): string {
    if json == "" || json[0] != '{' then json
    else "{" + FieldsText(Stamp(recordId, session, file, offset, HexHash(json))) + ("," + json[1..])
  }

  /** Key/value pairs printed by the correlator: every value goes through `EscapeJson`. */
  function PrintedFields(pairs: seq<(string, string)>): seq<Field> {
    if pairs == [] then [] else [Quoted(pairs[0].0, Escaped(pairs[0].1))] + PrintedFields(pairs[1..])
  }

  function FirstValue(pairs: seq<(string, string)>, key: string): Option<string> {
    if pairs == [] then None
    else if pairs[0].0 == key then Some(pairs[0].1)
    else FirstValue(pairs[1..], key)
  }

  lemma {:induction false} PrintedFieldsHold(pairs: seq<(string, string)>, key: string)
    requires forall p <- pairs :: Identifier(p.0)
    ensures forall f <- PrintedFields(pairs) :: WellFormed(f)
    ensures match FirstValue(pairs, key)
            case None => FirstQuoted(PrintedFields(pairs), key).None?
            case Some(value) => FirstQuoted(PrintedFields(pairs), key) == Some(Escaped(value))
  {
    if pairs != [] {
      EscapedReadsBack(pairs[0].1);
      PrintedFieldsHold(pairs[1..], key);
      assert PrintedFields(pairs)[1..] == PrintedFields(pairs[1..]);
    }
  }

  /** Whatever bytes the values hold, extraction returns exactly the first value printed under the key:
      no value can end early, imitate a field, or hide a later one. */
  lemma ExtractInvertsPrinter(pairs: seq<(string, string)>, key: string)
    requires Identifier(key)
    requires forall p <- pairs :: Identifier(p.0)
    ensures ExtractString(ObjectText(PrintedFields(pairs)), key) == FirstValue(pairs, key)
  {
    PrintedFieldsHold(pairs, key);
    var value := if FirstValue(pairs, key).Some? then FirstValue(pairs, key).value else "";
    EscapedReadsBack(value);
    ExtractFromObject(PrintedFields(pairs), key, value);
  }

  lemma StampKeys()
    ensures Identifier("record_id") && Identifier("session_id") && Identifier("source_file")
    ensures Identifier("byte_offset") && Identifier("content_hash")
  {
  }

  lemma NumeralHolds(key: string, n: nat)
    requires Identifier(key)
    ensures WellFormed(Bare(key, Decimal(n)))
  {
    DecimalDenotes(n);
    assert forall i :: 0 <= i < |Decimal(n)| ==> Decimal(n)[i] != '"';
  }

  lemma StampWellFormed(recordId: nat, session: string, file: string, offset: nat, hash: string)
    requires Plain(session) && Plain(file) && Plain(hash)
    ensures forall f <- Stamp(recordId, session, file, offset, hash) :: WellFormed(f)
  {
    hide Identifier, WellFormed;
    StampKeys();
    NumeralHolds("record_id", recordId);
    NumeralHolds("byte_offset", offset);
    PlainHolds("session_id", session);
    PlainHolds("source_file", file);
    PlainHolds("content_hash", hash);
  }

  lemma PlainHolds(key: string, text: string)
    requires Identifier(key) && Plain(text)
    ensures WellFormed(Quoted(key, text))
  {
    PlainReadsBack(text);
  }

  lemma StampFinds(recordId: nat, session: string, file: string, offset: nat, hash: string)
    ensures var fs := Stamp(recordId, session, file, offset, hash);
            && FirstQuoted(fs, "session_id") == Some(session)
            && FirstQuoted(fs, "source_file") == Some(file)
            && FirstQuoted(fs, "content_hash") == Some(hash)
            && FirstNamed(fs, "record_id") == Some(Bare("record_id", Decimal(recordId)))
            && FirstNamed(fs, "byte_offset") == Some(Bare("byte_offset", Decimal(offset)))
  {
    hide Decimal;
    var fs := Stamp(recordId, session, file, offset, hash);
    StampKeysDiffer();
    assert fs[1..][1..] == fs[2..] && fs[2..][1..] == fs[3..] && fs[3..][1..] == fs[4..];
    assert FirstQuoted(fs[4..], "content_hash") == Some(hash);
    assert FirstQuoted(fs[2..], "content_hash") == Some(hash);
    assert FirstQuoted(fs[2..], "source_file") == Some(file);
    assert FirstNamed(fs[3..], "byte_offset") == Some(fs[3]);
    assert FirstNamed(fs[1..], "byte_offset") == Some(fs[3]);
  }

  lemma StampKeysDiffer()
    ensures "session_id" != "source_file" && "session_id" != "content_hash" && "source_file" != "content_hash"
    ensures "record_id" != "byte_offset" && "session_id" != "byte_offset" && "source_file" != "byte_offset"
  {
    assert "session_id"[1] == 'e' && "source_file"[1] == 'o' && "content_hash"[1] == 'o';
    assert "source_file"[0] == 's' && "content_hash"[0] == 'c' && "byte_offset"[0] == 'b' && "record_id"[0] == 'r';
  }

  lemma HashIsPlain(s: string)
    ensures Plain(HexHash(s))
  {
    HexIsPlain(HexHash(s));
  }

  lemma {:induction false} HexIsPlain(h: string)
    requires forall i :: 0 <= i < |h| ==> h[i] in "0123456789abcdef"
    ensures Plain(h)
  {
    if h != "" {
      assert h[0] in "0123456789abcdef";
      HexIsPlain(h[1..]);
      assert h == [h[0]] + h[1..];
    }
  }

  /** On a wrapped line the envelope's own fields are read back whatever the body holds,
      even when the body repeats the same keys. */
  lemma EnvelopeReadsBack(json: string, recordId: nat, session: string, file: string, offset: nat)
    requires Plain(session) && Plain(file)
    requires json != "" && json[0] == '{'
    ensures var line := Wrap(json, recordId, session, file, offset);
            && ExtractString(line, "session_id") == Some(session)
            && ExtractString(line, "source_file") == Some(file)
            && ExtractString(line, "content_hash") == Some(HexHash(json))
            && ExtractNumber(line, "record_id") == (if recordId < Power10(18) then Some(recordId) else None)
            && ExtractNumber(line, "byte_offset") == (if offset < Power10(18) then Some(offset) else None)
  {
    hide FieldsText, WellFormed, FirstQuoted, FirstNamed, Stamp, ExtractString, ExtractNumber, Power10, Decimal,
         Identifier;
    var hash := HexHash(json);
    var fs := Stamp(recordId, session, file, offset, hash);
    var tail := "," + json[1..];
    HashIsPlain(json);
    StampKeys();
    StampWellFormed(recordId, session, file, offset, hash);
    StampFinds(recordId, session, file, offset, hash);
    PlainReadsBack(session);
    PlainReadsBack(file);
    PlainReadsBack(hash);
    ExtractFromPrefix(fs, tail, "session_id", session);
    ExtractFromPrefix(fs, tail, "source_file", file);
    ExtractFromPrefix(fs, tail, "content_hash", hash);
    NumberFromPrefix(fs, tail, "record_id");
    NumberFromPrefix(fs, tail, "byte_offset");
    PrintedReadsBack(recordId);
    PrintedReadsBack(offset);
  }
}
