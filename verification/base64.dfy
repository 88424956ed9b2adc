/** The Base64 loop of `DetectEncodedCommand` in APP/src/applog_decoder.cpp, which keeps its bits in a wrapping
    32-bit accumulator, against block decoding (section 4 of RFC 4648). */
module Base64 {
  import opened Text

  type Byte = b: nat | b < 256
  type Sextet = v: nat | v < 64

  // ---------------------------------------------------------------- the alphabet

  function Letter(v: Sextet): char {
    if v < 26 then ('A' as nat + v) as char
    else if v < 52 then ('a' as nat + v - 26) as char
    else if v < 62 then ('0' as nat + v - 52) as char
    else if v == 62 then '+'
    else '/'
  }

  /** Position in the alphabet. */
  function SextetOf(c: char): (r: Option<Sextet>)
    ensures r.Some? ==> Letter(r.value) == c
  {
    if 'A' <= c <= 'Z' then Some(c as nat - 'A' as nat)
    else if 'a' <= c <= 'z' then Some(c as nat - 'a' as nat + 26)
    else if '0' <= c <= '9' then Some(c as nat - '0' as nat + 52)
    else if c == '+' then Some(62)
    else if c == '/' then Some(63)
    else None
  }

  /** The alphabet (table 1 of RFC 4648), and nothing else is a letter of it. */
  lemma AlphabetIs()
    ensures forall v: Sextet ::
              Letter(v) as nat == if v < 26 then 65 + v else if v < 52 then 71 + v else if v < 62 then v - 4
                                  else if v == 62 then 43 else 47
    ensures forall c: char :: SextetOf(c).Some? <==> 'A' <= c <= 'Z' || 'a' <= c <= 'z' || '0' <= c <= '9' || c in "+/"
  {
  }

  lemma LetterIsKnown(v: Sextet)
    ensures SextetOf(Letter(v)) == Some(v)
  {
  }

  /** The values of the alphabet characters; all others are skipped. */
  function Sextets(s: string): seq<Sextet> {
    if s == "" then []
    else
      var front := Sextets(s[..|s| - 1]);
      match SextetOf(s[|s| - 1])
      case None => front
      case Some(v) => front + [v]
  }

  // ---------------------------------------------------------------- bits

  /** The three bytes of four values v, w, x, y. */
  function Byte1(v: Sextet, w: Sextet): Byte { v * 4 + w / 16 }

  function Byte2(w: Sextet, x: Sextet): Byte { w % 16 * 16 + x / 4 }

  function Byte3(x: Sextet, y: Sextet): Byte { x % 4 * 64 + y }

  /** The four values of three bytes a, b, c. */
  function Sextet1(a: Byte): Sextet { a / 4 }

  function Sextet2(a: Byte, b: Byte): Sextet { a % 4 * 16 + b / 16 }

  function Sextet3(b: Byte, c: Byte): Sextet { b % 16 * 4 + c / 64 }

  function Sextet4(c: Byte): Sextet { c % 64 }

  lemma FirstByte(a: Byte, b: Byte)
    ensures Byte1(Sextet1(a), Sextet2(a, b)) == a
  {
  }

  lemma SecondByte(a: Byte, b: Byte, c: Byte)
    ensures Byte2(Sextet2(a, b), Sextet3(b, c)) == b
  {
    var h, l := b / 16, b % 16;
    assert (a % 4 * 16 + h) % 16 == h;
    assert (l * 4 + c / 64) / 4 == l;
  }

  lemma ThirdByte(b: Byte, c: Byte)
    ensures Byte3(Sextet3(b, c), Sextet4(c)) == c
  {
    assert (b % 16 * 4 + c / 64) % 4 == c / 64;
  }

  // ---------------------------------------------------------------- block decoding

  /** Four values are three bytes; two left over are one byte, three are two, one is none. */
  function Blocks(q: seq<Sextet>): seq<Byte> {
    if |q| >= 4 then [Byte1(q[0], q[1]), Byte2(q[1], q[2]), Byte3(q[2], q[3])] + Blocks(q[4..])
    else if |q| == 3 then [Byte1(q[0], q[1]), Byte2(q[1], q[2])]
    else if |q| == 2 then [Byte1(q[0], q[1])]
    else []
  }

  /** The byte that one more value completes. */
  function Completed(q: seq<Sextet>, x: Sextet): seq<Byte> {
    if |q| % 4 == 0 then []
    else
      var last := q[|q| - 1];
      if |q| % 4 == 1 then [Byte1(last, x)]
      else if |q| % 4 == 2 then [Byte2(last, x)]
      else [Byte3(last, x)]
  }

  lemma {:induction false} BlocksSnoc(q: seq<Sextet>, x: Sextet)
    ensures Blocks(q + [x]) == Blocks(q) + Completed(q, x)
  {
    hide Byte1, Byte2, Byte3;
    if |q| >= 4 {
      assert (q + [x])[4..] == q[4..] + [x];
      BlocksSnoc(q[4..], x);
      if |q| > 4 { assert q[4..][|q[4..]| - 1] == q[|q| - 1]; }
      assert Completed(q, x) == Completed(q[4..], x);
    } else {
      BlocksShort(q, x);
    }
  }

  lemma BlocksShort(q: seq<Sextet>, x: Sextet)
    requires |q| < 4
    ensures Blocks(q + [x]) == Blocks(q) + Completed(q, x)
  {
    hide Byte1, Byte2, Byte3, Blocks, Completed;
    CompletedShort(q, x);
    if |q| == 0 {
      assert q == [] && [] + [x] == [x] && Blocks([]) + [] == Blocks([]);
      BlocksUpTo1(x);
    } else if |q| == 1 {
      assert q == [q[0]] && q + [x] == [q[0], x];
      BlocksUpTo1(q[0]);
      BlocksOfTwo(q[0], x);
    } else if |q| == 2 {
      assert q == [q[0], q[1]] && q + [x] == [q[0], q[1], x];
      BlocksOfTwo(q[0], q[1]);
      BlocksOfThree(q[0], q[1], x);
    } else {
      assert q == [q[0], q[1], q[2]] && q + [x] == [q[0], q[1], q[2], x];
      BlocksOfThree(q[0], q[1], q[2]);
      BlocksOfFour(q[0], q[1], q[2], x);
    }
  }

  lemma CompletedShort(q: seq<Sextet>, x: Sextet)
    requires |q| < 4
    ensures |q| == 0 ==> Completed(q, x) == []
    ensures |q| == 1 ==> Completed(q, x) == [Byte1(q[0], x)]
    ensures |q| == 2 ==> Completed(q, x) == [Byte2(q[1], x)]
    ensures |q| == 3 ==> Completed(q, x) == [Byte3(q[2], x)]
  {
    hide Byte1, Byte2, Byte3;
  }

  lemma BlocksUpTo1(v: Sextet)
    ensures Blocks([]) == Blocks([v]) == []
  {
  }

  lemma BlocksOfTwo(v: Sextet, w: Sextet)
    ensures Blocks([v, w]) == [Byte1(v, w)]
  {
    hide Byte1;
  }

  lemma BlocksOfThree(v: Sextet, w: Sextet, x: Sextet)
    ensures Blocks([v, w, x]) == [Byte1(v, w), Byte2(w, x)]
  {
    hide Byte1, Byte2;
  }

  lemma BlocksOfFour(v: Sextet, w: Sextet, x: Sextet, y: Sextet)
    ensures Blocks([v, w, x, y]) == [Byte1(v, w), Byte2(w, x), Byte3(x, y)]
  {
    hide Byte1, Byte2, Byte3;
    assert [v, w, x, y][4..] == [];
    assert Blocks([]) == [];
  }

  // ---------------------------------------------------------------- section 4 of RFC 4648

  function Encode(bs: seq<Byte>): string {
    if |bs| >= 3 then
      [Letter(Sextet1(bs[0])), Letter(Sextet2(bs[0], bs[1])), Letter(Sextet3(bs[1], bs[2])), Letter(Sextet4(bs[2]))]
      + Encode(bs[3..])
    else if |bs| == 2 then [Letter(Sextet1(bs[0])), Letter(Sextet2(bs[0], bs[1])), Letter(Sextet3(bs[1], 0)), '=']
    else if |bs| == 1 then [Letter(Sextet1(bs[0])), Letter(Sextet2(bs[0], 0)), '=', '=']
    else ""
  }

  lemma {:induction false} SextetsAppend(s: string, t: string)
    ensures Sextets(s + t) == Sextets(s) + Sextets(t)
  {
    if t == "" {
      assert s + t == s;
    } else {
      assert (s + t)[..|s + t| - 1] == s + t[..|t| - 1];
      SextetsAppend(s, t[..|t| - 1]);
    }
  }

  lemma SextetsOne(c: char)
    ensures Sextets([c]) == match SextetOf(c) case None => [] case Some(v) => [v]
  {
    assert [c][..0] == "";
    assert Sextets("") == [];
  }

  lemma SextetsFour(a: char, b: char, c: char, d: char)
    ensures Sextets([a, b, c, d]) == Sextets([a]) + Sextets([b]) + Sextets([c]) + Sextets([d])
  {
    hide Sextets;
    assert [a, b, c, d] == [a] + [b] + [c] + [d];
    SextetsAppend([a] + [b] + [c], [d]);
    SextetsAppend([a] + [b], [c]);
    SextetsAppend([a], [b]);
  }

  lemma LetterSextets(v: Sextet)
    ensures Sextets([Letter(v)]) == [v]
  {
    hide Letter, SextetOf;
    SextetsOne(Letter(v));
    LetterIsKnown(v);
  }

  lemma PadSextets()
    ensures Sextets("=") == []
  {
    SextetsOne('=');
  }

  /** Block decoding inverts the encoding. */
  lemma {:induction false} DecodeInvertsEncode(bs: seq<Byte>)
    ensures Blocks(Sextets(Encode(bs))) == bs
  {
    hide Sextets, Letter;
    if |bs| >= 3 {
      FullBlock(bs);
      DecodeInvertsEncode(bs[3..]);
      assert bs == [bs[0], bs[1], bs[2]] + bs[3..];
    } else {
      LastBlock(bs);
    }
  }

  lemma FullBlock(bs: seq<Byte>)
    requires |bs| >= 3
    ensures Blocks(Sextets(Encode(bs))) == [bs[0], bs[1], bs[2]] + Blocks(Sextets(Encode(bs[3..])))
  {
    hide Sextets, Letter, Byte1, Byte2, Byte3, Sextet1, Sextet2, Sextet3, Sextet4;
    var v, w, x, y := Sextet1(bs[0]), Sextet2(bs[0], bs[1]), Sextet3(bs[1], bs[2]), Sextet4(bs[2]);
    FirstByte(bs[0], bs[1]);
    SecondByte(bs[0], bs[1], bs[2]);
    ThirdByte(bs[1], bs[2]);
    FourSextets(v, w, x, y, Encode(bs[3..]));
    FourBlocks(v, w, x, y, Sextets(Encode(bs[3..])));
  }

  lemma FourSextets(v: Sextet, w: Sextet, x: Sextet, y: Sextet, rest: string)
    ensures Sextets([Letter(v), Letter(w), Letter(x), Letter(y)] + rest) == [v, w, x, y] + Sextets(rest)
  {
    hide Sextets, Letter;
    SextetsFour(Letter(v), Letter(w), Letter(x), Letter(y));
    LetterSextets(v);
    LetterSextets(w);
    LetterSextets(x);
    LetterSextets(y);
    SextetsAppend([Letter(v), Letter(w), Letter(x), Letter(y)], rest);
  }

  lemma FourBlocks(v: Sextet, w: Sextet, x: Sextet, y: Sextet, q: seq<Sextet>)
    ensures Blocks([v, w, x, y] + q) == [Byte1(v, w), Byte2(w, x), Byte3(x, y)] + Blocks(q)
  {
    hide Byte1, Byte2, Byte3;
    assert ([v, w, x, y] + q)[4..] == q;
  }

  lemma LastBlock(bs: seq<Byte>)
    requires |bs| < 3
    ensures Blocks(Sextets(Encode(bs))) == bs
  {
    hide Sextets, Letter, Sextet1, Sextet2, Sextet3, Blocks;
    if |bs| == 2 {
      LastTwo(bs[0], bs[1]);
    } else if |bs| == 1 {
      LastOne(bs[0]);
    } else {
      SextetsEmpty();
      BlocksEmpty();
    }
  }

  lemma BlocksEmpty()
    ensures Blocks([]) == []
  {
  }

  lemma LastTwo(a: Byte, b: Byte)
    ensures Blocks(Sextets([Letter(Sextet1(a)), Letter(Sextet2(a, b)), Letter(Sextet3(b, 0)), '='])) == [a, b]
  {
    hide Sextets, Letter, Byte1, Byte2, Sextet1, Sextet2, Sextet3;
    var v, w, x := Sextet1(a), Sextet2(a, b), Sextet3(b, 0);
    PadSextets();
    SextetsFour(Letter(v), Letter(w), Letter(x), '=');
    LetterSextets(v);
    LetterSextets(w);
    LetterSextets(x);
    FirstByte(a, b);
    SecondByte(a, b, 0);
    assert Sextets([Letter(v), Letter(w), Letter(x), '=']) == [v, w, x];
  }

  lemma LastOne(a: Byte)
    ensures Blocks(Sextets([Letter(Sextet1(a)), Letter(Sextet2(a, 0)), '=', '='])) == [a]
  {
    hide Sextets, Letter, Byte1, Sextet1, Sextet2;
    var v, w := Sextet1(a), Sextet2(a, 0);
    PadSextets();
    SextetsFour(Letter(v), Letter(w), '=', '=');
    LetterSextets(v);
    LetterSextets(w);
    FirstByte(a, 0);
    assert Sextets([Letter(v), Letter(w), '=', '=']) == [v, w];
  }

  lemma SextetsEmpty()
    ensures Sextets("") == []
  {
  }

  // ---------------------------------------------------------------- the loop

  /** Two's complement. */
  function Wrap32(x: int): int {
    var m := x % 0x1_0000_0000;
    if m < 0x8000_0000 then m else m - 0x1_0000_0000
  }

  lemma WrapKeepsLow(x: int)
    ensures Wrap32(x) % 4096 == x % 4096
  {
    var m := x % 0x1_0000_0000;
    assert x == x / 0x1_0000_0000 * 0x10_0000 * 4096 + m;
    Mod4096(m, x / 0x1_0000_0000 * 0x10_0000);
    Mod4096(m, -0x10_0000);
  }

  lemma Mod4096(m: int, k: int)
    ensures (m + k * 4096) % 4096 == m % 4096
  {
  }

  function Power2(n: nat): (r: nat)
    ensures r > 0
  {
    if n == 0 then 1 else 2 * Power2(n - 1)
  }

  /** The arithmetic shift `x >> n`, and the low eight bits of it. */
  function LowByte(x: int, n: nat): Byte { x / Power2(n) % 256 }

  lemma LowByteIs(x: int)
    ensures LowByte(x, 0) == x % 256 && LowByte(x, 2) == x / 4 % 256 && LowByte(x, 4) == x / 16 % 256
  {
    assert Power2(0) == 1 && Power2(1) == 2 && Power2(2) == 4 && Power2(3) == 8 && Power2(4) == 16;
  }

  /** The value of the last two sextets. */
  function Last12(q: seq<Sextet>): nat {
    if q == [] then 0
    else if |q| == 1 then q[0]
    else
      var before: nat, last: nat := q[|q| - 2], q[|q| - 1];
      before * 64 + last
  }

  lemma ShiftIn(q: seq<Sextet>, val: int, x: Sextet)
    requires val % 4096 == Last12(q)
    ensures Wrap32(val * 64 + x) % 4096 == Last12(q + [x])
  {
    hide Wrap32;
    WrapKeepsLow(val * 64 + x);
    var last := if q == [] then 0 else q[|q| - 1];
    var before := if |q| < 2 then 0 else q[|q| - 2];
    assert Last12(q) == before * 64 + last;
    assert val == val / 4096 * 4096 + (before * 64 + last);
    assert val * 64 + x == (last * 64 + x) + (val / 4096 * 64 + before) * 4096;
    Mod4096(last * 64 + x, val / 4096 * 64 + before);
    assert Last12(q + [x]) == last * 64 + x;
  }

  /** The eight bits from one of the three places depend on the low twelve only. */
  lemma ByteAt(val: int, last: Sextet, x: Sextet)
    requires val % 4096 == last * 64 + x
    ensures LowByte(val, 4) == Byte1(last, x)
    ensures LowByte(val, 2) == Byte2(last, x)
    ensures LowByte(val, 0) == Byte3(last, x)
  {
    hide LowByte;
    LowByteIs(val);
    var k := val / 4096;
    FirstAt(k, last, x);
    SecondAt(k, last, x);
    ThirdAt(k, last, x);
  }

  lemma FirstAt(k: int, last: Sextet, x: Sextet)
    ensures (k * 4096 + last * 64 + x) / 16 % 256 == Byte1(last, x)
  {
    var h, l := x / 16, x % 16;
    assert k * 4096 + last * 64 + x == (k * 256 + last * 4 + h) * 16 + l;
    assert (k * 4096 + last * 64 + x) / 16 == k * 256 + (last * 4 + h);
  }

  lemma SecondAt(k: int, last: Sextet, x: Sextet)
    ensures (k * 4096 + last * 64 + x) / 4 % 256 == Byte2(last, x)
  {
    var h, l, t := x / 4, x % 4, last / 16;
    assert last == t * 16 + last % 16;
    assert k * 4096 + last * 64 + x == ((k * 4 + t) * 256 + (last % 16 * 16 + h)) * 4 + l;
    assert (k * 4096 + last * 64 + x) / 4 == (k * 4 + t) * 256 + (last % 16 * 16 + h);
  }

  lemma ThirdAt(k: int, last: Sextet, x: Sextet)
    ensures (k * 4096 + last * 64 + x) % 256 == Byte3(last, x)
  {
    var t := last / 4;
    assert last == t * 4 + last % 4;
    assert k * 4096 + last * 64 + x == (k * 16 + t) * 256 + (last % 4 * 64 + x);
  }

  /** Where the bit count stands after a number of sextets. */
  function BitsAfter(n: nat): int {
    if n % 4 == 0 then -8 else if n % 4 == 1 then -2 else if n % 4 == 2 then -4 else -6
  }

  /** The byte that is taken out after a value was shifted in is the one that this value completes. */
  lemma ByteCompleted(q: seq<Sextet>, x: Sextet, val: int)
    requires |q| % 4 != 0 && val % 4096 == Last12(q + [x])
    ensures BitsAfter(|q|) + 6 in {0, 2, 4}
    ensures [LowByte(val, BitsAfter(|q|) + 6)] == Completed(q, x)
  {
    hide LowByte, Byte1, Byte2, Byte3;
    assert Last12(q + [x]) == q[|q| - 1] * 64 + x;
    ByteAt(val, q[|q| - 1], x);
  }

  /** Bytes as text, without the zero bytes. */
  function NonZero(bs: seq<Byte>): string {
    if bs == [] then ""
    else NonZero(bs[..|bs| - 1]) + if bs[|bs| - 1] == 0 then "" else [bs[|bs| - 1] as char]
  }

  lemma NonZeroSnoc(bs: seq<Byte>, b: Byte)
    ensures NonZero(bs + [b]) == NonZero(bs) + if b == 0 then "" else [b as char]
  {
    assert (bs + [b])[..|bs|] == bs;
  }

  function Decoded(s: string): string { NonZero(Blocks(Sextets(s))) }

  lemma StartOfLoop(s: string)
    ensures Decoded(s[..0]) == "" && Sextets(s[..0]) == [] && Last12([]) == 0
  {
    assert s[..0] == "";
  }

  lemma OneMore(s: string, i: nat)
    requires i < |s|
    ensures Sextets(s[..i + 1]) == match SextetOf(s[i])
                                   case None => Sextets(s[..i])
                                   case Some(v) => Sextets(s[..i]) + [v]
  {
    assert s[..i + 1][..i] == s[..i];
  }

  lemma Emitted(q: seq<Sextet>, x: Sextet)
    ensures |q| % 4 == 0 ==> NonZero(Blocks(q + [x])) == NonZero(Blocks(q))
    ensures |q| % 4 != 0 ==>
              |Completed(q, x)| == 1
              && NonZero(Blocks(q + [x]))
                 == NonZero(Blocks(q)) + if Completed(q, x)[0] == 0 then "" else [Completed(q, x)[0] as char]
  {
    hide NonZero, Blocks;
    BlocksSnoc(q, x);
    if |q| % 4 == 0 { assert Blocks(q) + [] == Blocks(q); }
    else { NonZeroSnoc(Blocks(q), Completed(q, x)[0]); }
  }

  /** For every input: the streaming loop is block decoding without the zero
      bytes; an empty result is the input itself. */
  method DecodeLoop(b64: string) returns (r: string)
    ensures r == if Decoded(b64) == "" then b64 else Decoded(b64)
  {
    hide Sextets, Blocks, NonZero, Completed, Wrap32, SextetOf, Last12, LowByte;
    var decoded := "";
    var val, bits := 0, -8;
    var i := 0;
    StartOfLoop(b64);
    while i < |b64|
      invariant 0 <= i <= |b64|
      invariant decoded == Decoded(b64[..i])
      invariant bits == BitsAfter(|Sextets(b64[..i])|) && val % 4096 == Last12(Sextets(b64[..i]))
    {
      ghost var q := Sextets(b64[..i]);
      OneMore(b64, i);
      var pos := SextetOf(b64[i]);
      if pos.Some? {
        ShiftIn(q, val, pos.value);
        val := Wrap32(val * 64 + pos.value);
        bits := bits + 6;
        Emitted(q, pos.value);
        if bits >= 0 {
          ByteCompleted(q, pos.value, val);
          var ch := LowByte(val, bits);
          if ch != 0 { decoded := decoded + [ch as char]; }
          bits := bits - 8;
        }
      }
      i := i + 1;
    }
    assert b64[..i] == b64;
    return if decoded == "" then b64 else decoded;
  }

  /** Decoding the encoding of any bytes yields them without the zero bytes. */
  lemma EncodedReadsBack(bs: seq<Byte>)
    ensures Decoded(Encode(bs)) == NonZero(bs)
  {
    hide Encode, Sextets, Blocks, NonZero;
    DecodeInvertsEncode(bs);
  }

  predicate Ascii(text: string) { forall i :: 0 <= i < |text| ==> 0 < text[i] as nat < 128 }

  /** The bytes of UTF-16LE text in the ASCII range: each character followed by a zero byte. */
  function Utf16LeBytes(text: string): seq<Byte>
    requires Ascii(text)
  {
    if text == "" then []
    else
      var last: Byte := text[|text| - 1] as nat;
      Utf16LeBytes(text[..|text| - 1]) + [last] + [0]
  }

  lemma {:induction false} NonZeroUtf16(text: string)
    requires Ascii(text)
    ensures NonZero(Utf16LeBytes(text)) == text
  {
    hide NonZero;
    if text != "" {
      var front := text[..|text| - 1];
      var last: Byte := text[|text| - 1] as nat;
      NonZeroUtf16(front);
      NonZeroSnoc(Utf16LeBytes(front) + [last], 0);
      NonZeroSnoc(Utf16LeBytes(front), last);
      assert text == front + [text[|text| - 1]];
    } else {
      NonZeroEmpty();
    }
  }

  lemma NonZeroEmpty()
    ensures NonZero([]) == ""
  {
  }

  /** So an encoded ASCII command is recovered as it was typed. */
  lemma CommandReadsBack(text: string)
    requires Ascii(text)
    ensures Decoded(Encode(Utf16LeBytes(text))) == text
  {
    hide Encode, NonZero, Decoded;
    EncodedReadsBack(Utf16LeBytes(text));
    NonZeroUtf16(text);
  }
}
