/** Numbers in a printed object: what `ExtractJsonNumber` reads back. */
module JsonNumbers {
  import opened Text
  import opened JsonFields
  import opened JsonPrinter

  function Decimal(n: nat): (text: string)
    ensures text != ""
  {
    var digit := ('0' as nat + n % 10) as char;
    if n < 10 then [digit] else Decimal(n / 10) + [digit]
  }

  function Printed(n: int): string {
    if n < 0 then "-" + Decimal(-n) else Decimal(n)
  }

  /** A decimal numeral has only digits, denotes its number, and has at most k
      digits exactly when the number is below 10^k. */
  lemma {:induction false} DecimalDenotes(n: nat)
    ensures forall i :: 0 <= i < |Decimal(n)| ==> IsDigit(Decimal(n)[i])
    ensures NumberOf(Decimal(n)) == n
    ensures forall k: nat :: k > 0 ==> (|Decimal(n)| <= k <==> n < Power10(k))
  {
    var text := Decimal(n);
    if n < 10 {
      assert text[..0] == "";
      forall k: nat | k > 0 ensures n < Power10(k) { Power10Mono(1, k); }
    } else {
      DecimalDenotes(n / 10);
      assert text[..|text| - 1] == Decimal(n / 10);
      forall k: nat | k > 0 ensures |text| <= k <==> n < Power10(k) {
        if k > 1 {
          assert |Decimal(n / 10)| <= k - 1 <==> n / 10 < Power10(k - 1);
        }
      }
    }
  }

  lemma {:induction false} RunOf(digits: string, rest: string)
    requires forall i :: 0 <= i < |digits| ==> IsDigit(digits[i])
    requires rest == "" || !IsDigit(rest[0])
    ensures DigitRun(digits + rest) == |digits|
  {
    if digits == "" {
      assert "" + rest == rest;
    } else {
      assert (digits + rest)[1..] == digits[1..] + rest;
      RunOf(digits[1..], rest);
    }
  }

  /** Text that cannot extend a number does not change the number before it. */
  lemma ParseStopsAt(token: string, rest: string)
    requires rest != "" && !IsDigit(rest[0]) && rest[0] != '-'
    ensures ParseNumber(token + rest) == ParseNumber(token)
  {
    var s := token + rest;
    if token == "" {
      assert s == rest;
    } else if token[0] == '-' {
      assert s[1..] == token[1..] + rest;
      DigitsStopAt(token[1..], rest);
    } else {
      DigitsStopAt(token, rest);
    }
  }

  lemma DigitsStopAt(token: string, rest: string)
    requires rest != "" && !IsDigit(rest[0])
    ensures DigitsValue(token + rest) == DigitsValue(token)
  {
    var run := DigitRun(token);
    assert token == token[..run] + token[run..];
    assert token + rest == token[..run] + (token[run..] + rest);
    RunOf(token[..run], token[run..] + rest);
    assert (token + rest)[..run] == token[..run];
  }

  /** Exactly the integers of at most 18 digits are read back; any longer one is refused. */
  lemma PrintedReadsBack(n: int)
    ensures ParseNumber(Printed(n)) == var limit: int := Power10(18); if -limit < n < limit then Some(n) else None
  {
    hide Decimal, DigitsValue, Power10;
    var digits := Decimal(if n < 0 then -n else n);
    DecimalValue(if n < 0 then -n else n);
    if n < 0 {
      assert Printed(n)[1..] == digits;
    }
  }

  lemma DecimalValue(m: nat)
    ensures DigitsValue(Decimal(m)) == if m < Power10(18) then Some(m) else None
    ensures Decimal(m)[0] != '-'
  {
    hide Power10, Decimal;
    var digits := Decimal(m);
    DecimalDenotes(m);
    RunOf(digits, "");
    assert digits + "" == digits && digits[..|digits|] == digits;
    assert |digits| <= 18 <==> m < Power10(18);
    assert IsDigit(digits[0]);
  }

  /** The first field of either kind named `key`. */
  function FirstNamed(fs: seq<Field>, key: string): Option<Field> {
    if fs == [] then None
    else if fs[0].key == key then Some(fs[0])
    else FirstNamed(fs[1..], key)
  }

  /** What a number request reads from a field: quoted text is never a number. */
  function NumberIn(f: Option<Field>): Option<int> {
    match f
    case Some(Bare(_, token)) => ParseNumber(token)
    case _ => None
  }

  /** The value text of `f`, up to and including what follows the field. */
  ghost predicate ValueAt(s: string, at: nat, f: Field, key: string) {
    && Absent(s, ValueNeedle(key), 1, at) && 1 <= at
    && Occurs(s, ValueNeedle(key), at)
    && Laid(s, at, FieldText(f)) && f.key == key
    && at + |FieldText(f)| < |s| && s[at + |FieldText(f)|] in ",}"
  }

  lemma FieldHasNoOtherNeedle(s: string, lo: nat, f: Field, key: string)
    requires Identifier(key) && WellFormed(f) && Laid(s, lo, FieldText(f)) && f.key != key
    requires lo + |FieldText(f)| < |s| && s[lo + |FieldText(f)|] in ",}"
    ensures Absent(s, ValueNeedle(key), lo, lo + |FieldText(f)|)
  {
    forall k | lo <= k < lo + |FieldText(f)| ensures !Occurs(s, ValueNeedle(key), k) {
      NoNeedleInField(s, lo, f, key, k);
    }
  }

  lemma NoValueNeedleHere(s: string, key: string, k: nat)
    requires k < |s| && s[k] != '"'
    ensures !Occurs(s, ValueNeedle(key), k)
  {
    NeedleShape(s, key, k);
  }

  lemma NeedleAtField(s: string, lo: nat, f: Field)
    requires Laid(s, lo, FieldText(f))
    ensures Occurs(s, ValueNeedle(f.key), lo)
  {
    FieldParts(s, lo, f);
    NeedleShape(s, f.key, lo);
  }

  lemma {:induction false} FirstValueNeedle(s: string, lo: nat, hi: nat, fs: seq<Field>, key: string) returns (at: nat)
    requires Identifier(key) && 1 <= lo
    requires forall f <- fs :: WellFormed(f)
    requires FieldsAt(s, lo, hi, fs) && hi < |s| && s[hi] in ",}"
    requires Absent(s, ValueNeedle(key), 1, lo)
    ensures match FirstNamed(fs, key)
            case None => Absent(s, ValueNeedle(key), 1, hi)
            case Some(f) => ValueAt(s, at, f, key)
    decreases |fs|
  {
    hide Occurs, ValueNeedle, Laid, FieldText;
    at := lo;
    if fs == [] { return; }
    var next := lo + |FieldText(fs[0])|;
    if fs[0].key == key {
      NeedleAtField(s, lo, fs[0]);
    } else {
      FieldHasNoOtherNeedle(s, lo, fs[0], key);
      if |fs| > 1 {
        NoValueNeedleHere(s, key, next);
        at := FirstValueNeedle(s, next + 1, hi, fs[1..], key);
      }
    }
  }

  /** On a flat object, a number request reads the first field of that name and no other. */
  lemma NumberFromObject(fs: seq<Field>, key: string)
    requires Identifier(key)
    requires forall f <- fs :: WellFormed(f)
    ensures ExtractNumber(ObjectText(fs), key) == NumberIn(FirstNamed(fs, key))
  {
    hide Occurs, Laid, FieldsText, ValueNeedle, FieldsAt, WellFormed, FirstNamed, ExtractNumber, ValueAt;
    var s := LayObject(fs, "}");
    NoValueNeedleHere(s, key, 0);
    var at := FirstValueNeedle(s, 1, |s| - 1, fs, key);
    NoValueNeedleHere(s, key, |s| - 1);
    match FirstNamed(fs, key)
    case None => NothingNumeric(s, key);
    case Some(f) => NumberAt(s, at, f, key);
  }

  /** The same for fields followed by arbitrary text. */
  lemma NumberFromPrefix(fs: seq<Field>, tail: string, key: string)
    requires Identifier(key) && tail != "" && tail[0] in ",}"
    requires forall f <- fs :: WellFormed(f)
    requires FirstNamed(fs, key).Some?
    ensures ExtractNumber("{" + FieldsText(fs) + tail, key) == NumberIn(FirstNamed(fs, key))
  {
    hide Occurs, Laid, FieldsText, ValueNeedle, FieldsAt, WellFormed, FirstNamed, ExtractNumber, ValueAt;
    var s := LayObject(fs, tail);
    NoValueNeedleHere(s, key, 0);
    var at := FirstValueNeedle(s, 1, 1 + |FieldsText(fs)|, fs, key);
    NumberAt(s, at, FirstNamed(fs, key).value, key);
  }

  lemma NothingNumeric(s: string, key: string)
    requires Absent(s, ValueNeedle(key), 0, |s|)
    ensures ExtractNumber(s, key) == None
  {
    hide Occurs;
    var r := Find(s, ValueNeedle(key), 0);
    if r.Some? { OccursInside(s, ValueNeedle(key), r.value); }
  }

  lemma OccursInside(s: string, needle: string, at: nat)
    requires Occurs(s, needle, at)
    ensures at + |needle| <= |s|
  {
  }

  lemma NumberAt(s: string, at: nat, f: Field, key: string)
    requires ValueAt(s, at, f, key) && !Occurs(s, ValueNeedle(key), 0)
    ensures ExtractNumber(s, key) == NumberIn(Some(f))
  {
    hide Occurs, Laid, FieldText, ParseNumber;
    assert Find(s, ValueNeedle(key), 0) == Some(at);
    OccursInside(s, ValueNeedle(key), at);
    TextAfterNeedle(s, at, f);
    var text := s[at + |ValueNeedle(key)|..];
    match f
    case Quoted(_, body) => QuoteIsNoNumber(text);
    case Bare(_, token) => ParseStopsAt(token, s[at + |FieldText(f)|..]);
  }

  lemma QuoteIsNoNumber(text: string)
    requires text != "" && text[0] == '"'
    ensures ParseNumber(text) == None
  {
  }

  lemma TextAfterNeedle(s: string, at: nat, f: Field)
    requires Laid(s, at, FieldText(f))
    ensures at + |FieldText(f)| <= |s|
    ensures var text := s[at + |ValueNeedle(f.key)|..];
            match f
            case Quoted(_, _) => text != "" && text[0] == '"'
            case Bare(_, token) => text == token + s[at + |FieldText(f)|..]
  {
    var t := FieldText(f);
    var n := |ValueNeedle(f.key)|;
    var text := s[at + n..];
    FieldParts(s, at, f);
    match f
    case Quoted(key, _) =>
      StringNeedleShape(s, key, at);
    case Bare(_, token) =>
      assert text == s[at + n..at + n + |token|] + s[at + n + |token|..];
  }
}
