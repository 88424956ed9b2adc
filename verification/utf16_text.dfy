/** FILEEE/file_processor.cpp `EscapeJsonString`: UTF-16 units to escaped UTF-8, and what the correlator's field
    extraction reads back from it. */
module Utf16Text {
  import opened Text
  import opened JsonFields
  import opened JsonPrinter

  /** One `wchar_t` of the source's platform. */
  type Unit = u: nat | u < 0x10000

  predicate IsScalar(c: nat) { c < 0xD800 || 0xE000 <= c < 0x110000 }

  predicate IsHigh(u: nat) { 0xD800 <= u <= 0xDBFF }

  predicate IsLow(u: nat) { 0xDC00 <= u <= 0xDFFF }

  const REPLACEMENT: nat := 0xFFFD

  // ---------------------------------------------------------------- UTF-16 (RFC 2781)

  function Combined(high: nat, low: nat): nat
    requires IsHigh(high) && IsLow(low)
  {
    0x10000 + (high - 0xD800) * 1024 + (low - 0xDC00)
  }

  predicate StartsPair(us: seq<Unit>) { |us| >= 2 && IsHigh(us[0]) && IsLow(us[1]) }

  /** The scalar values of the units; an unpaired surrogate counts as U+FFFD. */
  function Scalars(us: seq<Unit>): (r: seq<nat>)
    ensures forall c <- r :: IsScalar(c)
  {
    if us == [] then []
    else if StartsPair(us) then [Combined(us[0], us[1])] + Scalars(us[2..])
    else [if IsHigh(us[0]) || IsLow(us[0]) then REPLACEMENT else us[0]] + Scalars(us[1..])
  }

  /** The UTF-16 form of a scalar value. */
  function UnitsOf(c: nat): seq<Unit>
    requires IsScalar(c)
  {
    if c < 0x10000 then [c] else [0xD800 + (c - 0x10000) / 1024, 0xDC00 + (c - 0x10000) % 1024]
  }

  function Utf16(cs: seq<nat>): seq<Unit>
    requires forall c <- cs :: IsScalar(c)
  {
    if cs == [] then [] else UnitsOf(cs[0]) + Utf16(cs[1..])
  }

  /** A high surrogate is followed by a low one, a low one preceded by a high one. */
  predicate PairedAt(us: seq<Unit>, i: nat)
    requires i < |us|
  {
    && (IsHigh(us[i]) ==> i + 1 < |us| && IsLow(us[i + 1]))
    && (IsLow(us[i]) ==> i > 0 && IsHigh(us[i - 1]))
  }

  predicate WellPaired(us: seq<Unit>) {
    forall i :: 0 <= i < |us| ==> PairedAt(us, i)
  }

  lemma CombinedUnits(high: nat, low: nat)
    requires IsHigh(high) && IsLow(low)
    ensures IsScalar(Combined(high, low)) && UnitsOf(Combined(high, low)) == [high, low]
  {
  }

  lemma PairedLater(us: seq<Unit>, n: nat, i: nat)
    requires 1 <= n <= i < |us| && !IsHigh(us[n - 1])
    ensures PairedAt(us, i) <==> PairedAt(us[n..], i - n)
  {
    var rest := us[n..];
    assert us[i] == rest[i - n];
    if i > n { assert us[i - 1] == rest[i - n - 1]; }
    if i + 1 < |us| { assert us[i + 1] == rest[i - n + 1]; }
  }

  lemma PairedTail(us: seq<Unit>, n: nat)
    requires us != [] && n == (if StartsPair(us) then 2 else 1) && (StartsPair(us) || !(IsHigh(us[0]) || IsLow(us[0])))
    ensures WellPaired(us) <==> WellPaired(us[n..])
  {
    hide PairedAt;
    var rest := us[n..];
    PairedHead(us, n);
    assert !IsHigh(us[n - 1]);
    forall i | n <= i < |us| ensures PairedAt(us, i) <==> PairedAt(rest, i - n) { PairedLater(us, n, i); }
    forall k | 0 <= k < |rest| ensures PairedAt(us, k + n) <==> PairedAt(rest, k) { PairedLater(us, n, k + n); }
  }

  lemma PairedHead(us: seq<Unit>, n: nat)
    requires us != [] && n == (if StartsPair(us) then 2 else 1) && (StartsPair(us) || !(IsHigh(us[0]) || IsLow(us[0])))
    ensures forall i :: 0 <= i < n ==> PairedAt(us, i)
  {
  }

  lemma Utf16Cons(c: nat, cs: seq<nat>)
    requires IsScalar(c) && forall x <- cs :: IsScalar(x)
    ensures Utf16([c] + cs) == UnitsOf(c) + Utf16(cs)
  {
    assert ([c] + cs)[1..] == cs;
  }

  /** Nothing is lost if and only if no surrogate is unpaired. */
  lemma {:induction false} LosslessIffWellPaired(us: seq<Unit>)
    ensures Utf16(Scalars(us)) == us <==> WellPaired(us)
    decreases |us|
  {
    hide WellPaired, UnitsOf;
    if us == [] {
      assert WellPaired(us) by { NothingPaired(); }
    } else if StartsPair(us) {
      CombinedUnits(us[0], us[1]);
      Utf16Cons(Combined(us[0], us[1]), Scalars(us[2..]));
      LosslessIffWellPaired(us[2..]);
      PairedTail(us, 2);
      assert us == [us[0], us[1]] + us[2..];
    } else {
      LosslessSingle(us);
    }
  }

  lemma NothingPaired()
    ensures WellPaired([])
  {
  }

  lemma {:induction false} LosslessSingle(us: seq<Unit>)
    requires us != [] && !StartsPair(us)
    ensures Utf16(Scalars(us)) == us <==> WellPaired(us)
    decreases |us|, 0
  {
    hide WellPaired;
    var c := if IsHigh(us[0]) || IsLow(us[0]) then REPLACEMENT else us[0];
    Utf16Cons(c, Scalars(us[1..]));
    assert us == [us[0]] + us[1..];
    if IsHigh(us[0]) || IsLow(us[0]) {
      LoneSurrogate(us);
      assert Utf16(Scalars(us))[0] == c;
    } else {
      LosslessIffWellPaired(us[1..]);
      PairedTail(us, 1);
    }
  }

  lemma LoneSurrogate(us: seq<Unit>)
    requires us != [] && !StartsPair(us) && (IsHigh(us[0]) || IsLow(us[0]))
    ensures !WellPaired(us)
  {
    assert !PairedAt(us, 0);
  }

  // ---------------------------------------------------------------- UTF-8 (RFC 3629)

  /** Section 3 of RFC 3629. */
  function Utf8(c: nat): string
    requires IsScalar(c)
  {
    if c < 0x80 then [c as char]
    else if c < 0x800 then [(0xC0 + c / 64) as char, (0x80 + c % 64) as char]
    else if c < 0x10000 then [(0xE0 + c / 4096) as char, (0x80 + c / 64 % 64) as char, (0x80 + c % 64) as char]
    else [(0xF0 + c / 262144) as char, (0x80 + c / 4096 % 64) as char, (0x80 + c / 64 % 64) as char,
          (0x80 + c % 64) as char]
  }

  function Utf8Text(cs: seq<nat>): string
    requires forall c <- cs :: IsScalar(c)
  {
    if cs == [] then "" else Utf8(cs[0]) + Utf8Text(cs[1..])
  }

  predicate IsTail(c: char) { 0x80 <= c as nat < 0xC0 }

  /** The value of a lead byte of a sequence of `n` bytes and its tail bytes. */
  function Tail6(c: char): nat { if IsTail(c) then c as nat - 0x80 else 0 }

  /** The first character of `s` and its length in bytes, by the syntax of section 4 of RFC 3629; `None` if malformed:
      no overlong forms, no surrogates, nothing above 10FFFF. */
  function FirstChar(s: string): Option<(nat, nat)>
    requires s != ""
  {
    var b := s[0] as nat;
    if b < 0x80 then Some((b, 1))
    else if 0xC2 <= b < 0xE0 && |s| >= 2 && IsTail(s[1]) then Some(((b - 0xC0) * 64 + Tail6(s[1]), 2))
    else if 0xE0 <= b < 0xF0 && |s| >= 3 && IsTail(s[1]) && IsTail(s[2]) then
      var c := (b - 0xE0) * 4096 + Tail6(s[1]) * 64 + Tail6(s[2]);
      if c >= 0x800 && IsScalar(c) then Some((c, 3)) else None
    else if 0xF0 <= b < 0xF5 && |s| >= 4 && IsTail(s[1]) && IsTail(s[2]) && IsTail(s[3]) then
      var c := (b - 0xF0) * 262144 + Tail6(s[1]) * 4096 + Tail6(s[2]) * 64 + Tail6(s[3]);
      if 0x10000 <= c < 0x110000 then Some((c, 4)) else None
    else None
  }

  /** The scalar values of a well-formed UTF-8 text. */
  function DecodeUtf8(s: string): Option<seq<nat>>
    decreases |s|
  {
    if s == "" then Some([])
    else
      match FirstChar(s)
      case None => None
      case Some(first) =>
        if first.1 == 0 || first.1 > |s| then None
        else
          match DecodeUtf8(s[first.1..])
          case None => None
          case Some(rest) => Some([first.0] + rest)
  }

  lemma ThreeBytes(c: nat)
    requires 0x800 <= c < 0x10000
    ensures (c / 4096) * 4096 + (c / 64 % 64) * 64 + c % 64 == c && c / 4096 < 16 && c / 64 % 64 < 64
  {
    assert c / 64 / 64 == c / 4096;
  }

  lemma FourBytes(c: nat)
    requires 0x10000 <= c < 0x110000
    ensures (c / 262144) * 262144 + (c / 4096 % 64) * 4096 + (c / 64 % 64) * 64 + c % 64 == c && c / 262144 < 5
  {
    assert c / 64 / 64 == c / 4096 && c / 4096 / 64 == c / 262144;
  }

  lemma FirstIsEncoded(c: nat, rest: string)
    requires IsScalar(c)
    ensures FirstChar(Utf8(c) + rest) == Some((c, |Utf8(c)|))
  {
    var s := Utf8(c) + rest;
    assert s[..|Utf8(c)|] == Utf8(c);
    if 0x80 <= c < 0x800 {
      assert s[0] == Utf8(c)[0] && s[1] == Utf8(c)[1];
    } else if 0x800 <= c < 0x10000 {
      ThreeBytes(c);
      assert s[0] == Utf8(c)[0] && s[1] == Utf8(c)[1] && s[2] == Utf8(c)[2];
    } else if 0x10000 <= c {
      FourBytes(c);
      assert s[0] == Utf8(c)[0] && s[1] == Utf8(c)[1] && s[2] == Utf8(c)[2] && s[3] == Utf8(c)[3];
    }
  }

  /** The written bytes are well-formed UTF-8 of exactly these scalar values. */
  lemma {:induction false} Utf8ReadsBack(cs: seq<nat>)
    requires forall c <- cs :: IsScalar(c)
    ensures DecodeUtf8(Utf8Text(cs)) == Some(cs)
  {
    hide Utf8, FirstChar;
    if cs != [] {
      var rest := Utf8Text(cs[1..]);
      Utf8ReadsBack(cs[1..]);
      FirstIsEncoded(cs[0], rest);
      Utf8NotEmpty(cs[0]);
      assert (Utf8(cs[0]) + rest)[|Utf8(cs[0])|..] == rest;
      assert cs == [cs[0]] + cs[1..];
    }
  }

  lemma Utf8NotEmpty(c: nat)
    requires IsScalar(c)
    ensures Utf8(c) != ""
  {
  }

  // ---------------------------------------------------------------- EscapeJsonString

  function UpperHex(n: nat): char
    requires n < 16
  {
    "0123456789ABCDEF"[n]
  }

  function EscapedScalar(c: nat): string
    requires IsScalar(c)
  {
    if c >= 0x80 then Utf8(c)
    else if c as char == '"' then "\\\""
    else if c as char == '\\' then "\\\\"
    else if c as char == '\n' then "\\n"
    else if c as char == '\r' then "\\r"
    else if c as char == '\t' then "\\t"
    else if c < 0x20 then ['\\', 'u', '0', '0', UpperHex(c / 16), UpperHex(c % 16)]
    else [c as char]
  }

  function EscapedText(cs: seq<nat>): string
    requires forall c <- cs :: IsScalar(c)
  {
    if cs == [] then "" else EscapedScalar(cs[0]) + EscapedText(cs[1..])
  }

  lemma {:induction false} EscapedTextSnoc(cs: seq<nat>, c: nat)
    requires (forall x <- cs :: IsScalar(x)) && IsScalar(c)
    ensures EscapedText(cs + [c]) == EscapedText(cs) + EscapedScalar(c)
  {
    hide EscapedScalar;
    if cs == [] {
      assert [] + [c] == [c] && [c][1..] == [];
      assert EscapedText([]) == "";
    } else {
      assert (cs + [c])[1..] == cs[1..] + [c];
      EscapedTextSnoc(cs[1..], c);
    }
  }

  /** The branch for one unit at `i`: the scalar and how many units it takes. */
  method NextScalar(ws: seq<Unit>, i: nat) returns (cp: nat, next: nat)
    requires i < |ws|
    ensures IsScalar(cp) && i < next <= |ws|
    ensures Scalars(ws[i..]) == [cp] + Scalars(ws[next..])
  {
    cp, next := ws[i], i + 1;
    assert ws[i..][1..] == ws[i + 1..];
    if IsHigh(cp) {
      if i + 1 < |ws| {
        var low := ws[i + 1];
        if IsLow(low) {
          assert ws[i..][2..] == ws[i + 2..];
          cp, next := 0x10000 + (cp - 0xD800) * 1024 + (low - 0xDC00), i + 2;
        } else {
          cp := 0xFFFD;
        }
      } else {
        cp := 0xFFFD;
      }
    } else if IsLow(cp) {
      cp := 0xFFFD;
    }
  }

  method AppendScalar(cp: nat) returns (piece: string)
    requires IsScalar(cp)
    ensures piece == EscapedScalar(cp)
  {
    if cp < 0x80 {
      var c := cp as char;
      if c == '"' { piece := "\\\""; }
      else if c == '\\' { piece := "\\\\"; }
      else if c == '\n' { piece := "\\n"; }
      else if c == '\r' { piece := "\\r"; }
      else if c == '\t' { piece := "\\t"; }
      else if cp < 0x20 { piece := ['\\', 'u', '0', '0', UpperHex(cp / 16), UpperHex(cp % 16)]; }
      else { piece := [c]; }
    } else if cp < 0x800 {
      piece := [(0xC0 + cp / 64) as char, (0x80 + cp % 64) as char];
    } else if cp < 0x10000 {
      piece := [(0xE0 + cp / 4096) as char, (0x80 + cp / 64 % 64) as char, (0x80 + cp % 64) as char];
    } else {
      piece := [(0xF0 + cp / 262144) as char, (0x80 + cp / 4096 % 64) as char, (0x80 + cp / 64 % 64) as char,
                (0x80 + cp % 64) as char];
    }
  }

  /** The first `i` units have been written. */
  ghost predicate Written(ws: seq<Unit>, i: nat, out: string) {
    && i <= |ws|
    && exists done: seq<nat> ::
         AllScalars(done) && out == EscapedText(done) && done + Scalars(ws[i..]) == Scalars(ws)
  }

  predicate AllScalars(cs: seq<nat>) { forall c <- cs :: IsScalar(c) }

  lemma NothingWritten(ws: seq<Unit>)
    ensures Written(ws, 0, "")
  {
    hide Scalars;
    assert ws[0..] == ws && [] + Scalars(ws[0..]) == Scalars(ws);
    assert AllScalars([]) && EscapedText([]) == "";
  }

  lemma OneWritten(ws: seq<Unit>, i: nat, out: string, cp: nat, next: nat)
    requires Written(ws, i, out) && next <= |ws| && IsScalar(cp) && Scalars(ws[i..]) == [cp] + Scalars(ws[next..])
    ensures Written(ws, next, out + EscapedScalar(cp))
  {
    hide Scalars, EscapedScalar;
    var done: seq<nat> :| AllScalars(done) && out == EscapedText(done) && done + Scalars(ws[i..]) == Scalars(ws);
    EscapedTextSnoc(done, cp);
    assert done + ([cp] + Scalars(ws[next..])) == done + [cp] + Scalars(ws[next..]);
    assert AllScalars(done + [cp]);
  }

  lemma AllWritten(ws: seq<Unit>, out: string)
    requires Written(ws, |ws|, out)
    ensures out == EscapedText(Scalars(ws))
  {
    var done: seq<nat> :| AllScalars(done) && out == EscapedText(done) && done + Scalars(ws[|ws|..]) == Scalars(ws);
    assert ws[|ws|..] == [] && Scalars([]) == [] && done + [] == done;
  }

  method EscapeJsonString(ws: seq<Unit>) returns (out: string)
    ensures out == EscapedText(Scalars(ws))
  {
    hide EscapedScalar, Scalars, Written, EscapedText;
    out := "";
    var i: nat := 0;
    NothingWritten(ws);
    while i < |ws|
      invariant i <= |ws| && Written(ws, i, out)
      decreases |ws| - i
    {
      var cp, next := NextScalar(ws, i);
      var piece := AppendScalar(cp);
      OneWritten(ws, i, out, cp, next);
      i := next;
      out := out + piece;
    }
    AllWritten(ws, out);
  }

  // ---------------------------------------------------------------- reading it back

  lemma UpperHexValue(n: nat)
    requires n < 16
    ensures HexValue(UpperHex(n)) == Some(n)
  {
  }

  lemma DecodeUpperControl(c: nat, rest: string)
    requires c < 0x20 && |EscapedScalar(c)| == 6
    ensures DecodeEscape(EscapedScalar(c) + rest) == Piece([c as char], 6)
  {
    var t := EscapedScalar(c) + rest;
    UpperHexValue(c / 16);
    UpperHexValue(c % 16);
    var digits := t[2..6];
    assert digits == ['0', '0', UpperHex(c / 16), UpperHex(c % 16)];
    hide UpperHex;
    assert HexCode(digits) == Some(c);
  }

  lemma DecodeShort(c: nat, rest: string)
    requires IsScalar(c) && c < 0x80 && |EscapedScalar(c)| == 2
    ensures DecodeEscape(EscapedScalar(c) + rest) == Piece([c as char], 2)
  {
    var t := EscapedScalar(c) + rest;
    assert t[1] == EscapedScalar(c)[1];
  }

  /** Bytes other than quote and backslash stand for themselves. */
  lemma {:induction false} PlainPrefix(t: string, rest: string)
    requires JsonPrinter.Plain(t)
    ensures DecodeText(t + rest) == Prepend(t, DecodeText(rest))
  {
    hide DecodeEscape;
    if t == "" {
      assert t + rest == rest;
      PrependNothing(DecodeText(rest));
    } else {
      assert (t + rest)[0] == t[0] && t[0] in t && (t + rest)[1..] == t[1..] + rest;
      PlainPrefix(t[1..], rest);
      PrependTwice([t[0]], t[1..], DecodeText(rest));
      assert t == [t[0]] + t[1..];
    }
  }

  lemma MultiByteIsPlain(c: nat)
    requires IsScalar(c) && c >= 0x80
    ensures JsonPrinter.Plain(Utf8(c))
  {
  }

  lemma ScalarReadsBack(c: nat, rest: string)
    requires IsScalar(c)
    ensures DecodeText(EscapedScalar(c) + rest) == Prepend(Utf8(c), DecodeText(rest))
  {
    hide DecodeText, DecodeEscape, Prepend;
    if c >= 0x80 {
      MultiByteIsPlain(c);
      PlainPrefix(Utf8(c), rest);
    } else if |EscapedScalar(c)| == 6 {
      DecodeUpperControl(c, rest);
      DecodeAtBackslash(EscapedScalar(c), Piece([c as char], 6), rest);
    } else if |EscapedScalar(c)| == 2 {
      DecodeShort(c, rest);
      DecodeAtBackslash(EscapedScalar(c), Piece([c as char], 2), rest);
    } else {
      PlainPrefix([c as char], rest);
    }
  }

  lemma {:induction false} TextReadsBack(cs: seq<nat>, rest: string)
    requires forall c <- cs :: IsScalar(c)
    ensures DecodeText(EscapedText(cs) + ['"'] + rest) == Some(Utf8Text(cs))
  {
    hide EscapedScalar, Utf8, DecodeEscape;
    if cs == [] {
      assert EscapedText(cs) + ['"'] + rest == ['"'] + rest;
    } else {
      var tail := EscapedText(cs[1..]) + ['"'] + rest;
      assert EscapedText(cs) + ['"'] + rest == EscapedScalar(cs[0]) + tail;
      ScalarReadsBack(cs[0], tail);
      TextReadsBack(cs[1..], rest);
    }
  }

  lemma ScalarQuotes(c: nat)
    requires IsScalar(c)
    ensures QuotesEscaped(EscapedScalar(c))
  {
    hide UpperHex;
    if c < 0x20 {
      UpperHexValue(c / 16);
      UpperHexValue(c % 16);
    }
  }

  lemma {:induction false} TextQuotes(cs: seq<nat>)
    requires forall c <- cs :: IsScalar(c)
    ensures QuotesEscaped(EscapedText(cs))
  {
    hide QuotesEscaped, EscapedScalar;
    if cs == [] {
      assert QuotesEscaped("") by { EmptyQuotes(); }
    } else {
      TextQuotes(cs[1..]);
      ScalarQuotes(cs[0]);
      QuotesEscapedAppend(EscapedScalar(cs[0]), EscapedText(cs[1..]));
    }
  }

  lemma EmptyQuotes()
    ensures QuotesEscaped("")
  {
  }

  /** Across the two programs: a field written from any UTF-16 units, anywhere in a flat object, is extracted as
      well-formed UTF-8 of the same scalar values, unpaired surrogates having become U+FFFD. */
  lemma FieldReadsBack(fs: seq<Field>, key: string, us: seq<Unit>)
    requires Identifier(key) && (forall f <- fs :: WellFormed(f))
    requires FirstQuoted(fs, key) == Some(EscapedText(Scalars(us)))
    ensures ExtractString(ObjectText(fs), key) == Some(Utf8Text(Scalars(us)))
    ensures DecodeUtf8(Utf8Text(Scalars(us))) == Some(Scalars(us))
    ensures QuotesEscaped(EscapedText(Scalars(us)))
    ensures WellPaired(us) <==> Utf16(Scalars(us)) == us
  {
    hide ExtractString, ObjectText, FirstQuoted, WellFormed, EscapedText, Utf8Text, DecodeText, DecodeUtf8,
         QuotesEscaped, WellPaired;
    var cs := Scalars(us);
    forall rest: string ensures DecodeText(EscapedText(cs) + ['"'] + rest) == Some(Utf8Text(cs)) {
      TextReadsBack(cs, rest);
    }
    TextQuotes(cs);
    Utf8ReadsBack(cs);
    LosslessIffWellPaired(us);
    ExtractFromObject(fs, key, Utf8Text(cs));
  }
}
