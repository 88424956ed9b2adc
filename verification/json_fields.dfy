/** CORRELATOR/json_fields.cpp: first-match field extraction from one JSON line,
    and the printers whose output it reads back. */
module JsonFields {
  import opened Text

  const BACKSPACE: char := '\U{0008}'
  const FORM_FEED: char := '\U{000C}'
  const MAX_DIGITS: nat := 18

  // ---------------------------------------------------------------- reading

  function HexValue(h: char): Option<nat> {
    if '0' <= h <= '9' then Some(h as nat - '0' as nat)
    else if 'a' <= h <= 'f' then Some(h as nat - 'a' as nat + 10)
    else if 'A' <= h <= 'F' then Some(h as nat - 'A' as nat + 10)
    else None
  }

  /** The code of four hexadecimal digits, if they all are. */
  function HexCode(s: string): (r: Option<nat>)
    requires |s| == 4
    ensures r.Some? ==> r.value < 0x10000
  {
    match (HexValue(s[0]), HexValue(s[1]), HexValue(s[2]), HexValue(s[3]))
    case (Some(a), Some(b), Some(c), Some(d)) =>
      assert a < 16 && b < 16 && c < 16 && d < 16;
      Some(((a * 16 + b) * 16 + c) * 16 + d)
    case _ => None
  }

  /** The one- to three-byte form the decoder writes for a `\u` escape; surrogates are not combined. */
  function BmpBytes(code: nat): string
    requires code < 0x10000
  {
    if code < 0x80 then [code as char]
    else if code < 0x800 then [(0xC0 + code / 64) as char, (0x80 + code % 64) as char]
    else [(0xE0 + code / 4096) as char, (0x80 + code / 64 % 64) as char, (0x80 + code % 64) as char]
  }

  datatype Piece = Piece(text: string, used: nat)

  /** One backslash escape at the head of `s`: the bytes it stands for and how many characters it spans. */
  function DecodeEscape(s: string): (p: Piece)
    requires |s| >= 2
    ensures 2 <= p.used <= |s|
  {
    var next := s[1];
    if next == 'b' then Piece([BACKSPACE], 2)
    else if next == 'f' then Piece([FORM_FEED], 2)
    else if next == 'n' then Piece("\n", 2)
    else if next == 'r' then Piece("\r", 2)
    else if next == 't' then Piece("\t", 2)
    else if next == 'u' && |s| >= 6 && HexCode(s[2..6]).Some? then Piece(BmpBytes(HexCode(s[2..6]).value), 6)
    else Piece([next], 2)
  }

  function Prepend(head: string, rest: Option<string>): Option<string> {
    match rest
    case None => None
    case Some(t) => Some(head + t)
  }

  /** The decoded value of a quoted string, given the text after its opening quote;
      `None` when the closing quote is missing. */
  function DecodeText(s: string): Option<string>
    decreases |s|
  {
    if s == "" then None
    else if s[0] == '"' then Some("")
    else if s[0] != '\\' || |s| == 1 then Prepend([s[0]], DecodeText(s[1..]))
    else
      var p := DecodeEscape(s);
      Prepend(p.text, DecodeText(s[p.used..]))
  }

  function StringNeedle(key: string): string { "\"" + key + "\":\"" }

  function ValueNeedle(key: string): string { "\"" + key + "\":" }

  function ExtractString(line: string, key: string): Option<string> {
    match Find(line, StringNeedle(key), 0)
    case None => None
    case Some(at) => DecodeText(line[at + |StringNeedle(key)|..])
  }

  predicate IsDigit(c: char) { '0' <= c <= '9' }

  function DigitValue(c: char): nat
    requires IsDigit(c)
  {
    c as nat - '0' as nat
  }

  /** Length of the digit run at the head of `s`. */
  function DigitRun(s: string): (n: nat)
    ensures n <= |s|
    ensures forall i :: 0 <= i < n ==> IsDigit(s[i])
    ensures n < |s| ==> !IsDigit(s[n])
  {
    if s == "" || !IsDigit(s[0]) then 0 else 1 + DigitRun(s[1..])
  }

  function NumberOf(digits: string): nat
    requires forall i :: 0 <= i < |digits| ==> IsDigit(digits[i])
  {
    if digits == "" then 0
    else NumberOf(digits[..|digits| - 1]) * 10 + DigitValue(digits[|digits| - 1])
  }

  /** The digits at the head of `s`, refused when there are none or more than 18. */
  function DigitsValue(s: string): Option<int> {
    var run := DigitRun(s);
    if run == 0 || run > MAX_DIGITS then None else Some(NumberOf(s[..run]))
  }

  /** A bare integer at the head of `s`. */
  function ParseNumber(s: string): Option<int> {
    if s != "" && s[0] == '-' then
      match DigitsValue(s[1..])
      case None => None
      case Some(value) => Some(-value)
    else DigitsValue(s)
  }

  function ExtractNumber(line: string, key: string): Option<int> {
    match Find(line, ValueNeedle(key), 0)
    case None => None
    case Some(at) => ParseNumber(line[at + |ValueNeedle(key)|..])
  }

  /** One step of the cursor: an ordinary character, or a backslash with nothing after it, stands for itself. */
  lemma StepOrdinary(done: string, line: string, cursor: nat)
    requires cursor < |line| && line[cursor] != '"' && (line[cursor] != '\\' || cursor + 1 == |line|)
    ensures Prepend(done, DecodeText(line[cursor..])) == Prepend(done + [line[cursor]], DecodeText(line[cursor + 1..]))
  {
    var rest := line[cursor..];
    assert rest[1..] == line[cursor + 1..];
    PrependTwice(done, [line[cursor]], DecodeText(rest[1..]));
  }

  /** One step of the cursor over an escape. */
  lemma StepEscape(done: string, line: string, cursor: nat)
    requires cursor + 1 < |line| && line[cursor] == '\\'
    ensures var p := DecodeEscape(line[cursor..]);
            Prepend(done, DecodeText(line[cursor..])) == Prepend(done + p.text, DecodeText(line[cursor + p.used..]))
  {
    hide DecodeEscape;
    var rest := line[cursor..];
    var p := DecodeEscape(rest);
    assert rest[p.used..] == line[cursor + p.used..];
    PrependTwice(done, p.text, DecodeText(rest[p.used..]));
  }

  lemma StepClose(done: string, line: string, cursor: nat)
    requires cursor < |line| && line[cursor] == '"'
    ensures Prepend(done, DecodeText(line[cursor..])) == Some(done)
  {
    assert done + "" == done;
  }

  lemma StepEnd(done: string, line: string)
    ensures Prepend(done, DecodeText(line[|line|..])) == None
  {
  }

  /** The cursor loop of `ExtractJsonString`. */
  method ExtractJsonString(line: string, key: string) returns (r: Option<string>)
    ensures r == ExtractString(line, key)
  {
    var needle := StringNeedle(key);
    var pos := Find(line, needle, 0);
    if pos.None? { return None; }
    var cursor := pos.value + |needle|;
    var decoded := "";
    PrependNothing(DecodeText(line[cursor..]));
    assert ExtractString(line, key) == Prepend(decoded, DecodeText(line[cursor..]));
    hide DecodeEscape, Prepend, DecodeText, ExtractString, Occurs;
    while cursor < |line|
      invariant cursor <= |line|
      invariant ExtractString(line, key) == Prepend(decoded, DecodeText(line[cursor..]))
    {
      var c := line[cursor];
      if c == '"' {
        StepClose(decoded, line, cursor);
        return Some(decoded);
      }
      if c != '\\' || cursor + 1 >= |line| {
        StepOrdinary(decoded, line, cursor);
        decoded := decoded + [c];
        cursor := cursor + 1;
      } else {
        StepEscape(decoded, line, cursor);
        var p := DecodeEscape(line[cursor..]);
        decoded := decoded + p.text;
        cursor := cursor + p.used;
      }
    }
    StepEnd(decoded, line);
    return None;
  }

  lemma PrependTwice(a: string, b: string, rest: Option<string>)
    ensures Prepend(a, Prepend(b, rest)) == Prepend(a + b, rest)
  {
    if rest.Some? {
      assert a + (b + rest.value) == a + b + rest.value;
    }
  }

  lemma PrependNothing(rest: Option<string>)
    ensures Prepend("", rest) == rest
  {
    if rest.Some? {
      assert "" + rest.value == rest.value;
    }
  }

  function Power10(n: nat): nat { if n == 0 then 1 else 10 * Power10(n - 1) }

  lemma {:induction false} Power10Mono(m: nat, n: nat)
    requires m <= n
    ensures Power10(m) <= Power10(n)
    decreases n
  {
    if m < n { Power10Mono(m, n - 1); }
  }

  lemma NumberStep(s: string, n: nat)
    requires n < DigitRun(s)
    ensures NumberOf(s[..n + 1]) == NumberOf(s[..n]) * 10 + DigitValue(s[n])
  {
    assert s[..n + 1][..n] == s[..n];
  }

  /** A run of n digits is below ten to the n, so 18 of them fit in a signed 64-bit integer. */
  lemma {:induction false} NumberBound(digits: string)
    requires forall i :: 0 <= i < |digits| ==> IsDigit(digits[i])
    ensures NumberOf(digits) < Power10(|digits|)
  {
    if digits != "" { NumberBound(digits[..|digits| - 1]); }
  }

  /** The bounded digit loop inside `ExtractJsonNumber`. */
  method ReadDigits(line: string, start: nat) returns (r: Option<int>)
    requires start <= |line|
    ensures r == DigitsValue(line[start..])
  {
    ghost var rest := line[start..];
    ghost var run := DigitRun(rest);
    var cursor := start;
    var value: int := 0;
    while cursor < |line| && IsDigit(line[cursor])
      invariant start <= cursor <= |line| && cursor - start <= run
      invariant cursor - start <= MAX_DIGITS
      invariant value == NumberOf(rest[..cursor - start])
    {
      assert rest[cursor - start] == line[cursor];
      if cursor - start >= 18 { return None; }
      NumberStep(rest, cursor - start);
      value := value * 10 + DigitValue(line[cursor]);
      cursor := cursor + 1;
    }
    assert cursor < |line| ==> line[cursor] == rest[cursor - start];
    r := if cursor == start then None else Some(value);
  }

  method ExtractJsonNumber(line: string, key: string) returns (r: Option<int>)
    ensures r == ExtractNumber(line, key)
  {
    var needle := ValueNeedle(key);
    var pos := Find(line, needle, 0);
    if pos.None? { return None; }
    var cursor := pos.value + |needle|;
    ghost var text := line[cursor..];
    var negative := cursor < |line| && line[cursor] == '-';
    if negative {
      cursor := cursor + 1;
      assert text[1..] == line[cursor..];
    }
    r := ReadDigits(line, cursor);
    if negative && r.Some? { r := Some(-r.value); }
  }
}
