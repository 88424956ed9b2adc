/** Every way of writing a character in a JSON string (section 7 of RFC 8259), and what the decoder of
    CORRELATOR/json_fields.cpp makes of it. */
module JsonEscapes {
  import opened Text
  import opened JsonFields
  import opened JsonPrinter
  import Utf16Text

  /** A character as it stands; a backslash and one character; or a backslash, a
      `u` and the four hexadecimal digits of a code, in either case. */
  datatype Token = Plainly(c: char) | Marked(c: char) | Coded(code: nat, upper: bool)

  predicate Proper(t: Token) {
    match t
    case Plainly(c) => c != '"' && c != '\\'
    case Marked(c) => c != 'u'
    case Coded(code, _) => code < 65536
  }

  function Digit(n: nat, upper: bool): char
    requires n < 16
  {
    if upper then Utf16Text.UpperHex(n) else HexDigit(n)
  }

  function Written(t: Token): string
    requires Proper(t)
  {
    match t
    case Plainly(c) => [c]
    case Marked(c) => ['\\', c]
    case Coded(code, upper) =>
      ['\\', 'u', Digit(code / 4096, upper), Digit(code / 256 % 16, upper), Digit(code / 16 % 16, upper),
       Digit(code % 16, upper)]
  }

  function WrittenAll(ts: seq<Token>): string
    requires forall t <- ts :: Proper(t)
  {
    if ts == [] then "" else Written(ts[0]) + WrittenAll(ts[1..])
  }

  /** The control character that a letter stands for behind a backslash; any other character stands for itself. */
  function ControlOf(c: char): nat {
    if c == 'b' then 8 else if c == 't' then 9 else if c == 'n' then 10 else if c == 'f' then 12
    else if c == 'r' then 13 else c as nat
  }

  /** A code stands for the UTF-8 bytes of its character. Halves of surrogate
      pairs are no characters; what is written for them is no UTF-8. */
  predicate Means(t: Token, bytes: string) {
    match t
    case Plainly(c) => bytes == [c]
    case Marked(c) => |bytes| == 1 && bytes[0] as nat == ControlOf(c)
    case Coded(code, _) =>
      Utf16Text.DecodeUtf8(bytes) == if 0xD800 <= code < 0xE000 then None else Some([code])
  }

  lemma DigitValueIs(n: nat, upper: bool)
    requires n < 16
    ensures HexValue(Digit(n, upper)) == Some(n)
  {
    HexRoundTrip(n);
    Utf16Text.UpperHexValue(n);
  }

  lemma CodeIs(code: nat, upper: bool)
    requires code < 65536
    ensures HexCode(Written(Coded(code, upper))[2..6]) == Some(code)
  {
    DigitValueIs(code / 4096, upper);
    DigitValueIs(code / 256 % 16, upper);
    DigitValueIs(code / 16 % 16, upper);
    DigitValueIs(code % 16, upper);
    hide Digit, HexValue;
    var s := Written(Coded(code, upper))[2..6];
    assert s[0] == Digit(code / 4096, upper) && s[1] == Digit(code / 256 % 16, upper)
        && s[2] == Digit(code / 16 % 16, upper) && s[3] == Digit(code % 16, upper);
    Regroup(code);
  }

  lemma Regroup(code: nat)
    requires code < 65536
    ensures ((code / 4096 * 16 + code / 256 % 16) * 16 + code / 16 % 16) * 16 + code % 16 == code
  {
  }

  lemma BytesOfCode(code: nat, upper: bool)
    requires code < 65536
    ensures Means(Coded(code, upper), BmpBytes(code))
  {
    if 0xD800 <= code < 0xE000 {
      SurrogateIsMalformed(code);
    } else {
      assert BmpBytes(code) == Utf16Text.Utf8(code);
      assert [code][0] == code && [code][1..] == [];
      assert Utf16Text.Utf8Text([code]) == Utf16Text.Utf8(code) by { OneText(code); }
      Utf16Text.Utf8ReadsBack([code]);
    }
  }

  lemma OneText(code: nat)
    requires Utf16Text.IsScalar(code)
    ensures Utf16Text.Utf8Text([code]) == Utf16Text.Utf8(code)
  {
    assert [code][1..] == [];
  }

  lemma SurrogateIsMalformed(code: nat)
    requires 0xD800 <= code < 0xE000
    ensures Utf16Text.DecodeUtf8(BmpBytes(code)) == None
  {
    var s := BmpBytes(code);
    assert s[0] as nat == 0xED;
    assert 0xD000 + Utf16Text.Tail6(s[1]) * 64 + Utf16Text.Tail6(s[2]) == code;
  }

  lemma TokenIsDecoded(t: Token, rest: string) returns (bytes: string)
    requires Proper(t)
    ensures Means(t, bytes) && DecodeText(Written(t) + rest) == Prepend(bytes, DecodeText(rest))
  {
    hide Means, DecodeText;
    match t
    case Plainly(c) =>
      bytes := [c];
      assert Means(t, bytes) by { PlainMeans(c); }
      PlainStep(c, rest);
    case Marked(c) =>
      bytes := [ControlOf(c) as char];
      assert Means(t, bytes) by { MarkedMeans(c); }
      MarkedStep(c, rest);
    case Coded(code, upper) =>
      bytes := BmpBytes(code);
      BytesOfCode(code, upper);
      CodedStep(code, upper, rest);
  }

  lemma PlainMeans(c: char)
    ensures Means(Plainly(c), [c])
  {
  }

  lemma MarkedMeans(c: char)
    ensures Means(Marked(c), [ControlOf(c) as char])
  {
  }

  lemma PlainStep(c: char, rest: string)
    requires c != '"' && c != '\\'
    ensures DecodeText([c] + rest) == Prepend([c], DecodeText(rest))
  {
    assert ([c] + rest)[1..] == rest;
  }

  lemma MarkedStep(c: char, rest: string)
    requires c != 'u'
    ensures DecodeText(['\\', c] + rest) == Prepend([ControlOf(c) as char], DecodeText(rest))
  {
    hide DecodeText;
    var piece := Piece([ControlOf(c) as char], 2);
    assert DecodeEscape(['\\', c] + rest) == piece;
    DecodeAtBackslash(['\\', c], piece, rest);
  }

  lemma CodedStep(code: nat, upper: bool, rest: string)
    requires code < 65536
    ensures DecodeText(Written(Coded(code, upper)) + rest) == Prepend(BmpBytes(code), DecodeText(rest))
  {
    hide DecodeText, HexCode, BmpBytes, Digit;
    var text := Written(Coded(code, upper));
    CodeIs(code, upper);
    assert (text + rest)[2..6] == text[2..6] && (text + rest)[1] == 'u';
    assert DecodeEscape(text + rest) == Piece(BmpBytes(code), 6);
    DecodeAtBackslash(text, Piece(BmpBytes(code), 6), rest);
  }

  function Concat(pieces: seq<string>): string {
    if pieces == [] then "" else pieces[0] + Concat(pieces[1..])
  }

  predicate AllMean(ts: seq<Token>, pieces: seq<string>) {
    |pieces| == |ts| && forall i :: 0 <= i < |ts| ==> Means(ts[i], pieces[i])
  }

  /** A string written with any mixture of these is decoded to what the parts mean, one after the other. */
  lemma {:induction false} EveryWritingIsDecoded(ts: seq<Token>, rest: string) returns (pieces: seq<string>)
    requires forall t <- ts :: Proper(t)
    ensures AllMean(ts, pieces) && DecodeText(WrittenAll(ts) + "\"" + rest) == Some(Concat(pieces))
  {
    hide Means, Written, DecodeText, Proper;
    if ts == [] {
      pieces := [];
      assert "" + "\"" + rest == "\"" + rest;
      EndOfText(rest);
    } else {
      assert ts[0] in ts;
      var more := EveryWritingIsDecoded(ts[1..], rest);
      var bytes := TokenIsDecoded(ts[0], WrittenAll(ts[1..]) + "\"" + rest);
      assert WrittenAll(ts) + "\"" + rest == Written(ts[0]) + (WrittenAll(ts[1..]) + "\"" + rest);
      pieces := [bytes] + more;
      assert pieces[1..] == more;
    }
  }

  lemma EndOfText(rest: string)
    ensures DecodeText("\"" + rest) == Some("")
  {
  }
}
