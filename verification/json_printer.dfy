/** The printers of JSON lines and the proof that field extraction reads them back. */
module JsonPrinter {
  import opened Text
  import opened JsonFields

  // ---------------------------------------------------------------- EscapeJson

  function HexDigit(n: nat): char
    requires n < 16
  {
    "0123456789abcdef"[n]
  }

  function EscapeChar(c: char): string {
    if c == '"' then "\\\""
    else if c == '\\' then "\\\\"
    else if c == BACKSPACE then "\\b"
    else if c == FORM_FEED then "\\f"
    else if c == '\n' then "\\n"
    else if c == '\r' then "\\r"
    else if c == '\t' then "\\t"
    else if c < ' ' then ['\\', 'u', '0', '0', HexDigit(c as nat / 16), HexDigit(c as nat % 16)]
    else [c]
  }

  function Escaped(s: string): string {
    if s == "" then "" else EscapeChar(s[0]) + Escaped(s[1..])
  }

  lemma {:induction false} EscapedAppend(s: string, t: string)
    ensures Escaped(s + t) == Escaped(s) + Escaped(t)
  {
    if s == "" {
      assert "" + t == t;
    } else {
      assert (s + t)[1..] == s[1..] + t;
      EscapedAppend(s[1..], t);
    }
  }

  /** The output loop of `EscapeJson`. */
  method EscapeJson(value: string) returns (out: string)
    ensures out == Escaped(value)
  {
    out := "";
    for i := 0 to |value|
      invariant out == Escaped(value[..i])
    {
      assert value[..i + 1] == value[..i] + [value[i]];
      EscapedAppend(value[..i], [value[i]]);
      out := out + EscapeChar(value[i]);
    }
    assert value[..|value|] == value;
  }

  // ---------------------------------------------------------------- what a printed body must satisfy

  /** Every quote of `body` is preceded by a backslash, so no quote in it ends the value. */
  ghost predicate QuotesEscaped(body: string) {
    forall p :: 0 <= p < |body| && body[p] == '"' ==> p > 0 && body[p - 1] == '\\'
  }

  /** Reading `body` followed by its closing quote yields `value`, whatever comes after. */
  ghost predicate ReadsAs(body: string, value: string) {
    forall rest: string :: DecodeText(body + ['"'] + rest) == Some(value)
  }

  lemma QuotesEscapedAppend(a: string, b: string)
    requires QuotesEscaped(a) && QuotesEscaped(b)
    ensures QuotesEscaped(a + b)
  {
    var t := a + b;
    forall p | 0 <= p < |t| && t[p] == '"' ensures p > 0 && t[p - 1] == '\\' {
      if p < |a| {
        assert a[p] == '"';
        assert p > 0 && a[p - 1] == '\\';
      } else {
        assert b[p - |a|] == '"';
        assert p - |a| > 0 && b[p - |a| - 1] == '\\';
      }
    }
  }

  lemma {:induction false} EscapedQuotes(s: string)
    ensures QuotesEscaped(Escaped(s))
  {
    if s != "" {
      EscapedQuotes(s[1..]);
      assert QuotesEscaped(EscapeChar(s[0]));
      QuotesEscapedAppend(EscapeChar(s[0]), Escaped(s[1..]));
    }
  }

  lemma HexRoundTrip(n: nat)
    requires n < 16
    ensures HexValue(HexDigit(n)) == Some(n)
  {
  }

  /** A control character's six-character escape is read back as that character. */
  lemma DecodeControl(c: char, rest: string)
    requires |EscapeChar(c)| == 6
    ensures DecodeEscape(EscapeChar(c) + rest) == Piece([c], 6)
  {
    var t := EscapeChar(c) + rest;
    var code := c as nat;
    HexRoundTrip(code / 16);
    HexRoundTrip(code % 16);
    var digits := t[2..6];
    assert digits == ['0', '0', HexDigit(code / 16), HexDigit(code % 16)];
    hide HexDigit;
    assert HexCode(digits) == Some(code);
  }

  lemma DecodePair(c: char, rest: string)
    requires |EscapeChar(c)| == 2
    ensures DecodeEscape(EscapeChar(c) + rest) == Piece([c], 2)
  {
    var t := EscapeChar(c) + rest;
    assert t[1] == EscapeChar(c)[1];
  }

  /** A backslash starts an escape. */
  lemma DecodeAtBackslash(piece: string, p: Piece, rest: string)
    requires |piece| == p.used >= 2 && piece[0] == '\\' && DecodeEscape(piece + rest) == p
    ensures DecodeText(piece + rest) == Prepend(p.text, DecodeText(rest))
  {
    hide DecodeEscape;
    assert (piece + rest)[p.used..] == rest;
  }

  /** One escaped character is read back as that character. */
  lemma DecodeEscapedChar(c: char, rest: string)
    ensures DecodeText(EscapeChar(c) + rest) == Prepend([c], DecodeText(rest))
  {
    if |EscapeChar(c)| == 6 {
      DecodeControl(c, rest);
      DecodeAtBackslash(EscapeChar(c), Piece([c], 6), rest);
    } else if |EscapeChar(c)| == 2 {
      DecodePair(c, rest);
      DecodeAtBackslash(EscapeChar(c), Piece([c], 2), rest);
    } else {
      assert ([c] + rest)[1..] == rest;
    }
  }

  lemma {:induction false} DecodeEscaped(s: string, rest: string)
    ensures DecodeText(Escaped(s) + ['"'] + rest) == Some(s)
  {
    if s == "" {
      assert Escaped(s) + ['"'] + rest == ['"'] + rest;
    } else {
      var tail := Escaped(s[1..]) + ['"'] + rest;
      assert Escaped(s) + ['"'] + rest == EscapeChar(s[0]) + tail;
      DecodeEscapedChar(s[0], tail);
      DecodeEscaped(s[1..], rest);
      assert s == [s[0]] + s[1..];
    }
  }

  /** `EscapeJson` output is read back as the original bytes. */
  lemma EscapedReadsBack(s: string)
    ensures QuotesEscaped(Escaped(s)) && ReadsAs(Escaped(s), s)
  {
    EscapedQuotes(s);
    forall rest: string ensures DecodeText(Escaped(s) + ['"'] + rest) == Some(s) {
      DecodeEscaped(s, rest);
    }
  }

  predicate Plain(s: string) { '"' !in s && '\\' !in s }

  /** Text with neither quote nor backslash may be written without escaping. */
  lemma PlainReadsBack(s: string)
    requires Plain(s)
    ensures QuotesEscaped(s) && ReadsAs(s, s)
  {
    forall rest: string ensures DecodeText(s + ['"'] + rest) == Some(s) {
      DecodePlain(s, rest);
    }
  }

  lemma {:induction false} DecodePlain(s: string, rest: string)
    requires Plain(s)
    ensures DecodeText(s + ['"'] + rest) == Some(s)
  {
    var t := s + ['"'] + rest;
    if s != "" {
      assert t[1..] == s[1..] + ['"'] + rest;
      assert t[0] == s[0] && t[0] in s;
      DecodePlain(s[1..], rest);
      assert s == [s[0]] + s[1..];
    }
  }

  // ---------------------------------------------------------------- flat objects

  /** `"key":"body"` with an already printed body, or `"key":token`. */
  datatype Field = Quoted(key: string, body: string) | Bare(key: string, token: string)

  predicate IdentChar(c: char) {
    'a' <= c <= 'z' || 'A' <= c <= 'Z' || '0' <= c <= '9' || c == '_'
  }

  predicate Identifier(key: string) {
    key != "" && forall i :: 0 <= i < |key| ==> IdentChar(key[i])
  }

  ghost predicate WellFormed(f: Field) {
    Identifier(f.key) &&
    match f
    case Quoted(_, body) => QuotesEscaped(body)
    case Bare(_, token) => token != "" && '"' !in token
  }

  function FieldText(f: Field): string {
    match f
    case Quoted(key, body) => StringNeedle(key) + body + "\""
    case Bare(key, token) => ValueNeedle(key) + token
  }

  function FieldsText(fs: seq<Field>): string {
    if fs == [] then ""
    else if |fs| == 1 then FieldText(fs[0])
    else FieldText(fs[0]) + "," + FieldsText(fs[1..])
  }

  function ObjectText(fs: seq<Field>): string { "{" + FieldsText(fs) + "}" }

  /** The first quoted field named `key`. */
  function FirstQuoted(fs: seq<Field>, key: string): Option<string> {
    if fs == [] then None
    else if fs[0].Quoted? && fs[0].key == key then Some(fs[0].body)
    else FirstQuoted(fs[1..], key)
  }

  /** No occurrence of `needle` begins at a position in [lo, hi). */
  ghost predicate Absent(s: string, needle: string, lo: nat, hi: nat) {
    forall k :: lo <= k < hi ==> !Occurs(s, needle, k)
  }

  // ---------------------------------------------------------------- where a needle can begin

  /** The shape of a value needle at `k`: an identifier between two quotes, then a colon. */
  ghost predicate Shaped(s: string, key: string, k: nat) {
    && k + |key| + 2 < |s|
    && s[k] == '"' && s[k + 1 + |key|] == '"' && s[k + 2 + |key|] == ':'
    && s[k + 1..k + 1 + |key|] == key
  }

  lemma NeedleShape(s: string, key: string, k: nat)
    ensures Occurs(s, ValueNeedle(key), k) <==> Shaped(s, key, k)
  {
    var n := ValueNeedle(key);
    if k + |n| <= |s| {
      var w := s[k..k + |n|];
      assert n[0] == '"' && n[1 + |key|] == '"' && n[2 + |key|] == ':' && n[1..1 + |key|] == key;
      assert w[0] == s[k] && w[1 + |key|] == s[k + 1 + |key|] && w[2 + |key|] == s[k + 2 + |key|];
      SliceOfSlice(s, k, |n|, 1, 1 + |key|);
      assert w == [w[0]] + w[1..1 + |key|] + [w[1 + |key|], w[2 + |key|]];
    }
  }

  lemma SliceOfSlice(s: string, k: nat, n: nat, i: nat, j: nat)
    requires i <= j <= n && k + n <= |s|
    ensures s[k..k + n][i..j] == s[k + i..k + j]
  {
    var a, b := s[k..k + n][i..j], s[k + i..k + j];
    assert forall t :: 0 <= t < j - i ==> a[t] == b[t];
  }

  /** A string needle is a value needle followed by a quote. */
  lemma StringNeedleShape(s: string, key: string, k: nat)
    ensures Occurs(s, StringNeedle(key), k)
       <==> Occurs(s, ValueNeedle(key), k) && k + |key| + 3 < |s| && s[k + |key| + 3] == '"'
  {
    var n := StringNeedle(key);
    var m := |key| + 3;
    assert n == ValueNeedle(key) + ['"'];
    if k + |n| <= |s| {
      var w := s[k..k + |n|];
      assert w == s[k..k + m] + [s[k + m]];
      assert w[..m] == s[k..k + m] && w[m] == s[k + m];
      assert n[..m] == ValueNeedle(key) && n[m] == '"';
    }
  }

  /** No needle begins inside a quoted value or at its closing quote. */
  lemma NoNeedleInBody(s: string, lo: nat, body: string, key: string, k: nat)
    requires Identifier(key) && QuotesEscaped(body)
    requires lo + |body| + 1 < |s|
    requires s[lo..lo + |body|] == body
    requires s[lo + |body|] == '"' && s[lo + |body| + 1] in ",}"
    requires lo <= k + 1 && k <= lo + |body|
    ensures !Occurs(s, ValueNeedle(key), k)
  {
    NeedleShape(s, key, k);
    var close := lo + |body|;
    var q := k + 1 + |key|;
    assert IdentChar(key[0]) && IdentChar(key[|key| - 1]);
    assert forall p :: lo <= p < close ==> s[p] == body[p - lo];
    if q < close {
      assert body[q - lo] == '"' ==> body[q - lo - 1] == '\\';
      assert s[k + 1..k + 1 + |key|][|key| - 1] == s[q - 1];
    } else if k == close {
      if k + 1 + |key| <= |s| { assert s[k + 1..k + 1 + |key|][0] == s[k + 1]; }
    } else if q > close && q <= |s| {
      assert s[k + 1..q][close - k - 1] == s[close];
      assert IdentChar(key[close - k - 1]);
    }
  }

  /** Among the characters of `"name":` only the first can begin a needle, and only for that name. */
  lemma NoNeedleAtKey(s: string, at: nat, name: string, key: string, k: nat)
    requires Identifier(key) && Identifier(name)
    requires Shaped(s, name, at)
    requires at <= k < at + |name| + 3
    requires k == at ==> name != key
    ensures !Occurs(s, ValueNeedle(key), k)
  {
    NeedleShape(s, key, k);
    forall p | 0 <= p < |name| ensures s[at + 1 + p] == name[p] && IdentChar(name[p]) {
      assert s[at + 1..at + 1 + |name|][p] == s[at + 1 + p];
    }
    if k == at {
      if |key| < |name| {
        assert IdentChar(name[|key|]) && s[at + 1 + |key|] == name[|key|];
      } else if |name| < |key| && k + 1 + |key| <= |s| {
        assert s[k + 1..k + 1 + |key|][|name|] == s[k + 1 + |name|];
        assert IdentChar(key[|name|]);
      }
    } else if k <= at + |name| {
      assert s[at + 1 + (k - at - 1)] == name[k - at - 1];
    } else if k == at + |name| + 1 && k + 1 + |key| <= |s| {
      assert s[k + 1..k + 1 + |key|][0] == s[k + 1];
      assert IdentChar(key[0]);
    }
  }

  // ---------------------------------------------------------------- fields laid out in a text

  predicate Laid(s: string, at: nat, t: string) { Occurs(s, t, at) }

  /** `fs` printed in s[lo..hi]. */
  predicate FieldsAt(s: string, lo: nat, hi: nat, fs: seq<Field>)
    decreases |fs|
  {
    if fs == [] then lo == hi
    else
      var next := lo + |FieldText(fs[0])|;
      && Laid(s, lo, FieldText(fs[0]))
      && if |fs| == 1 then hi == next
         else next < |s| && s[next] == ',' && FieldsAt(s, next + 1, hi, fs[1..])
  }

  lemma LaidPart(s: string, at: nat, a: string, b: string, c: string)
    requires Laid(s, at, a + b + c)
    ensures Laid(s, at, a) && Laid(s, at + |a|, b) && Laid(s, at + |a| + |b|, c)
  {
    var t := a + b + c;
    SliceOfSlice(s, at, |t|, 0, |a|);
    SliceOfSlice(s, at, |t|, |a|, |a| + |b|);
    SliceOfSlice(s, at, |t|, |a| + |b|, |t|);
    assert t[..|a|] == a && t[|a|..|a| + |b|] == b && t[|a| + |b|..] == c;
  }

  lemma LaidWhole(a: string, b: string, c: string)
    ensures Laid(a + b + c, 0, a) && Laid(a + b + c, |a|, b) && Laid(a + b + c, |a| + |b|, c)
  {
    assert (a + b + c)[0..|a + b + c|] == a + b + c;
    LaidPart(a + b + c, 0, a, b, c);
  }

  lemma LaidInside(s: string, at: nat, t: string)
    requires Laid(s, at, t)
    ensures at + |t| <= |s|
    ensures t != "" ==> s[at] == t[0]
  {
    if t != "" { assert s[at..at + |t|][0] == s[at]; }
  }

  lemma {:induction false} LayFields(s: string, lo: nat, fs: seq<Field>)
    requires Laid(s, lo, FieldsText(fs))
    ensures FieldsAt(s, lo, lo + |FieldsText(fs)|, fs)
    decreases |fs|
  {
    hide Occurs, FieldText, Laid;
    if fs == [] {
      LaidInside(s, lo, "");
    } else if |fs| > 1 {
      var a, b := FieldText(fs[0]), FieldsText(fs[1..]);
      assert FieldsText(fs) == a + "," + b;
      LaidPart(s, lo, a, ",", b);
      LaidInside(s, lo + |a|, ",");
      LayFields(s, lo + |a| + 1, fs[1..]);
    }
  }

  /** Where the parts of a laid out field are. */
  lemma FieldParts(s: string, lo: nat, f: Field)
    requires Laid(s, lo, FieldText(f))
    ensures Shaped(s, f.key, lo)
    ensures f.Quoted? ==> Laid(s, lo, StringNeedle(f.key)) && Laid(s, lo + |f.key| + 4, f.body)
                          && Laid(s, lo + |f.key| + 4 + |f.body|, "\"")
    ensures f.Bare? ==> Laid(s, lo + |f.key| + 3, f.token)
  {
    hide Laid, Occurs, Shaped, StringNeedle, ValueNeedle;
    match f
    case Quoted(key, body) => QuotedParts(s, lo, key, body);
    case Bare(key, token) => BareParts(s, lo, key, token);
  }

  lemma QuotedParts(s: string, lo: nat, key: string, body: string)
    requires Laid(s, lo, StringNeedle(key) + body + "\"")
    ensures Shaped(s, key, lo) && Laid(s, lo, StringNeedle(key))
    ensures Laid(s, lo + |key| + 4, body) && Laid(s, lo + |key| + 4 + |body|, "\"")
  {
    LaidPart(s, lo, StringNeedle(key), body, "\"");
    hide Occurs, Shaped;
    StringNeedleShape(s, key, lo);
    NeedleShape(s, key, lo);
  }

  lemma BareParts(s: string, lo: nat, key: string, token: string)
    requires Laid(s, lo, ValueNeedle(key) + token)
    ensures Shaped(s, key, lo) && Laid(s, lo + |key| + 3, token)
  {
    assert ValueNeedle(key) + token == ValueNeedle(key) + token + "";
    LaidPart(s, lo, ValueNeedle(key), token, "");
    hide Occurs, Shaped;
    NeedleShape(s, key, lo);
  }

  /** Inside one field, only its own start can begin a needle, and only for its own key. */
  lemma NoNeedleInField(s: string, lo: nat, f: Field, key: string, k: nat)
    requires Identifier(key) && WellFormed(f) && Laid(s, lo, FieldText(f))
    requires lo + |FieldText(f)| < |s| && s[lo + |FieldText(f)|] in ",}"
    requires lo <= k < lo + |FieldText(f)|
    requires k == lo ==> f.key != key
    ensures !Occurs(s, ValueNeedle(key), k)
  {
    hide Laid, Occurs, Shaped, StringNeedle, ValueNeedle, WellFormed;
    FieldParts(s, lo, f);
    FieldLength(f);
    match f
    case Quoted(name, body) =>
      if k < lo + |name| + 3 { NoNeedleAtKey(s, lo, name, key, k) by { WellFormedParts(f); } }
      else { NoNeedleInQuoted(s, lo + |name| + 3, body, key, k) by { WellFormedParts(f); } }
    case Bare(name, token) =>
      if k < lo + |name| + 3 { NoNeedleAtKey(s, lo, name, key, k) by { WellFormedParts(f); } }
      else { NoNeedleInToken(s, lo + |name| + 3, token, key, k) by { WellFormedParts(f); } }
  }

  lemma FieldLength(f: Field)
    ensures |FieldText(f)| == |f.key| + 3 + if f.Quoted? then |f.body| + 2 else |f.token|
  {
  }

  lemma WellFormedParts(f: Field)
    requires WellFormed(f)
    ensures Identifier(f.key) && (f.Quoted? ==> QuotesEscaped(f.body)) && (f.Bare? ==> '"' !in f.token && f.token != "")
  {
  }

  lemma NoNeedleInQuoted(s: string, v: nat, body: string, key: string, k: nat)
    requires Identifier(key) && QuotesEscaped(body)
    requires Laid(s, v + 1, body) && Laid(s, v + 1 + |body|, "\"")
    requires v + |body| + 2 < |s| && s[v + |body| + 2] in ",}"
    requires v <= k < v + |body| + 2
    ensures !Occurs(s, ValueNeedle(key), k)
  {
    hide Identifier, QuotesEscaped, ValueNeedle;
    assert s[v + 1 + |body|..v + 1 + |body| + 1][0] == '"';
    NoNeedleInBody(s, v + 1, body, key, k);
  }

  lemma NoNeedleInToken(s: string, v: nat, token: string, key: string, k: nat)
    requires Laid(s, v, token) && '"' !in token && v <= k < v + |token|
    ensures !Occurs(s, ValueNeedle(key), k)
  {
    NeedleShape(s, key, k);
    assert s[v..v + |token|][k - v] == s[k] && s[k] in token;
  }

  /** A field that is not a quoted field named `key` holds no string needle for it. */
  lemma FieldWithoutNeedle(s: string, lo: nat, f: Field, key: string)
    requires Identifier(key) && WellFormed(f) && Laid(s, lo, FieldText(f))
    requires lo + |FieldText(f)| < |s| && s[lo + |FieldText(f)|] in ",}"
    requires f.Bare? || f.key != key
    ensures Absent(s, StringNeedle(key), lo, lo + |FieldText(f)|)
  {
    hide Laid, Occurs, StringNeedle, ValueNeedle, WellFormed, Identifier, FieldText;
    forall k | lo <= k < lo + |FieldText(f)| ensures !Occurs(s, StringNeedle(key), k) {
      if k > lo || f.key != key {
        NoNeedleInField(s, lo, f, key, k);
        StringNeedleShape(s, key, k);
      } else {
        BareIsNotQuoted(s, lo, f);
      }
    }
  }

  lemma BareIsNotQuoted(s: string, lo: nat, f: Field)
    requires f.Bare? && WellFormed(f) && Laid(s, lo, FieldText(f))
    ensures !Occurs(s, StringNeedle(f.key), lo)
  {
    hide Laid, Occurs, Shaped, StringNeedle, ValueNeedle, Identifier, QuotesEscaped;
    WellFormedParts(f);
    FieldParts(s, lo, f);
    StringNeedleShape(s, f.key, lo);
    LaidInside(s, lo + |f.key| + 3, f.token);
    assert f.token[0] in f.token;
  }

  lemma NotAtQuote(s: string, key: string, k: nat)
    requires k < |s| && s[k] != '"'
    ensures !Occurs(s, StringNeedle(key), k)
  {
    NeedleShape(s, key, k);
    StringNeedleShape(s, key, k);
  }

  // ---------------------------------------------------------------- the extractor reads what was printed

  /** The first string needle at or after `lo` is at `at`, and `body` with its closing quote follows it. */
  ghost predicate FoundAt(s: string, key: string, lo: nat, at: nat, body: string) {
    && lo <= at && Absent(s, StringNeedle(key), lo, at)
    && Occurs(s, StringNeedle(key), at)
    && Laid(s, at + |StringNeedle(key)|, body) && Laid(s, at + |StringNeedle(key)| + |body|, "\"")
  }

  /** Walking the fields: the first string needle in s[lo..hi] is the first quoted field of that name. */
  lemma {:induction false} FirstNeedle(s: string, lo: nat, hi: nat, fs: seq<Field>, key: string) returns (at: nat)
    requires Identifier(key)
    requires forall f <- fs :: WellFormed(f)
    requires FieldsAt(s, lo, hi, fs) && hi < |s| && s[hi] in ",}"
    ensures match FirstQuoted(fs, key)
            case None => Absent(s, StringNeedle(key), lo, hi)
            case Some(body) => FoundAt(s, key, lo, at, body)
    decreases |fs|
  {
    hide Occurs, StringNeedle, Laid, FieldText;
    at := lo;
    if fs == [] { return; }
    var next := lo + |FieldText(fs[0])|;
    if fs[0].Quoted? && fs[0].key == key {
      FieldFound(s, lo, fs[0]);
    } else {
      FieldWithoutNeedle(s, lo, fs[0], key);
      if |fs| > 1 {
        at := FirstNeedle(s, next + 1, hi, fs[1..], key);
        NotAtQuote(s, key, next);
      }
    }
  }

  lemma FieldFound(s: string, lo: nat, f: Field)
    requires f.Quoted? && Laid(s, lo, FieldText(f))
    ensures FoundAt(s, f.key, lo, lo, f.body)
  {
    hide Laid, Occurs, Shaped, FieldText;
    FieldParts(s, lo, f);
    assert Occurs(s, StringNeedle(f.key), lo) by { LaidOccurs(s, StringNeedle(f.key), lo); }
  }

  lemma LaidOccurs(s: string, t: string, at: nat)
    ensures Laid(s, at, t) <==> Occurs(s, t, at)
  {
  }

  /** An object text is an opening brace, the fields, and what follows them. */
  lemma LayObject(fs: seq<Field>, tail: string) returns (s: string)
    requires tail != ""
    ensures s == "{" + FieldsText(fs) + tail
    ensures |s| == 1 + |FieldsText(fs)| + |tail|
    ensures s[0] == '{' && s[1 + |FieldsText(fs)|] == tail[0]
    ensures FieldsAt(s, 1, 1 + |FieldsText(fs)|, fs)
  {
    s := "{" + FieldsText(fs) + tail;
    hide Laid, Occurs, FieldsText, FieldsAt;
    var body := FieldsText(fs);
    LaidWhole("{", body, tail);
    LaidInside(s, 0, "{");
    LaidInside(s, 1 + |body|, tail);
    LayFields(s, 1, fs);
  }

  /** The extractor inverts the printer: on a flat object of identifier keys, whatever the values hold,
      it decodes exactly the first quoted field with the requested key, and finds nothing when there is none. */
  lemma ExtractFromObject(fs: seq<Field>, key: string, value: string)
    requires Identifier(key)
    requires forall f <- fs :: WellFormed(f)
    requires FirstQuoted(fs, key).Some? ==> ReadsAs(FirstQuoted(fs, key).value, value)
    ensures ExtractString(ObjectText(fs), key)
         == if FirstQuoted(fs, key).Some? then Some(value) else None
  {
    hide Occurs, Laid, FieldsText, StringNeedle, FieldsAt, WellFormed, ReadsAs, FirstQuoted, ExtractString, FoundAt;
    var s := LayObject(fs, "}");
    var at := FirstNeedle(s, 1, |s| - 1, fs, key);
    NotAtQuote(s, key, 0);
    NotAtQuote(s, key, |s| - 1);
    if FirstQuoted(fs, key).Some? {
      FoundIsExtracted(s, key, at, FirstQuoted(fs, key).value, value);
    } else {
      NothingExtracted(s, key);
    }
  }

  /** The same when arbitrary text follows the fields: later text cannot hide or replace an earlier field. */
  lemma ExtractFromPrefix(fs: seq<Field>, tail: string, key: string, value: string)
    requires Identifier(key) && tail != "" && tail[0] in ",}"
    requires forall f <- fs :: WellFormed(f)
    requires FirstQuoted(fs, key).Some? && ReadsAs(FirstQuoted(fs, key).value, value)
    ensures ExtractString("{" + FieldsText(fs) + tail, key) == Some(value)
  {
    hide Occurs, Laid, FieldsText, StringNeedle, FieldsAt, WellFormed, ReadsAs, FirstQuoted, ExtractString, FoundAt;
    var s := LayObject(fs, tail);
    var at := FirstNeedle(s, 1, 1 + |FieldsText(fs)|, fs, key);
    NotAtQuote(s, key, 0);
    FoundIsExtracted(s, key, at, FirstQuoted(fs, key).value, value);
  }

  lemma NothingExtracted(s: string, key: string)
    requires Absent(s, StringNeedle(key), 0, |s|)
    ensures ExtractString(s, key) == None
  {
    hide StringNeedle;
    var r := Find(s, StringNeedle(key), 0);
    if r.Some? && r.value == |s| { NeedleNotEmpty(key); }
  }

  lemma NeedleNotEmpty(key: string)
    ensures StringNeedle(key) != ""
  {
  }

  lemma FoundIsExtracted(s: string, key: string, at: nat, body: string, value: string)
    requires FoundAt(s, key, 1, at, body) && !Occurs(s, StringNeedle(key), 0)
    requires ReadsAs(body, value)
    ensures ExtractString(s, key) == Some(value)
  {
    assert Find(s, StringNeedle(key), 0) == Some(at);
    var lo := at + |StringNeedle(key)|;
    var text := s[lo..];
    assert text == s[lo..lo + |body|] + s[lo + |body|..lo + |body| + 1] + s[lo + |body| + 1..];
    assert text == body + ['"'] + s[lo + |body| + 1..];
  }
}
