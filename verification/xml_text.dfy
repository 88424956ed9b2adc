/** APP/src/applog_etw_collector.cpp (escaping) and APP/src/applog_decoder.cpp (unescaping in five passes). */
module XmlText {
  import opened Text

  // ---------------------------------------------------------------- one-pass escape

  /** The entity that stands for a character. */
  function Entity(c: char): string {
    match c
    case '&' => "&amp;"
    case '<' => "&lt;"
    case '>' => "&gt;"
    case '"' => "&quot;"
    case '\'' => "&apos;"
    case _ => [c]
  }

  /** Escaping only the characters of `special`. */
  function EscapedIn(s: string, special: string): string {
    if s == "" then ""
    else (if s[0] in special then Entity(s[0]) else [s[0]]) + EscapedIn(s[1..], special)
  }

  const SPECIAL: string := "&<>\"'"

  function Escaped(s: string): string { EscapedIn(s, SPECIAL) }

  /** The five entities that XML itself defines (section 4.6 of XML 1.0). */
  lemma EntitiesAre()
    ensures Escaped("&") == "&amp;" && Escaped("<") == "&lt;" && Escaped(">") == "&gt;"
    ensures Escaped("\"") == "&quot;" && Escaped("'") == "&apos;"
    ensures forall c :: c !in {'&', '<', '>', '"', '\''} ==> Escaped([c]) == [c]
  {
    forall c: char ensures Escaped([c]) == if c in SPECIAL then Entity(c) else [c] {
      EscapedInSnoc("", c, SPECIAL);
      assert "" + [c] == [c] && EscapedIn("", SPECIAL) == "";
    }
  }

  lemma {:induction false} EscapedInSnoc(s: string, c: char, special: string)
    ensures EscapedIn(s + [c], special) == EscapedIn(s, special) + (if c in special then Entity(c) else [c])
  {
    hide Entity, EscapedIn;
    EscapedInStep(s + [c], special);
    if s == "" {
      assert s + [c] == [c] && [c][1..] == "";
      EscapedInNothing(special);
    } else {
      assert (s + [c])[1..] == s[1..] + [c];
      EscapedInStep(s, special);
      EscapedInSnoc(s[1..], c, special);
    }
  }

  lemma EscapedInStep(s: string, special: string)
    requires s != ""
    ensures EscapedIn(s, special)
         == (if s[0] in special then Entity(s[0]) else [s[0]]) + EscapedIn(s[1..], special)
  {
  }

  lemma EscapedInNothing(special: string)
    ensures EscapedIn("", special) == ""
  {
  }

  method XmlEscape(value: string) returns (output: string)
    ensures output == Escaped(value)
  {
    hide Entity, SPECIAL;
    output := "";
    var i := 0;
    while i < |value|
      invariant 0 <= i <= |value| && output == Escaped(value[..i])
    {
      EscapedInSnoc(value[..i], value[i], SPECIAL);
      assert value[..i + 1] == value[..i] + [value[i]];
      var piece := EscapeOne(value[i]);
      output := output + piece;
      i := i + 1;
    }
    assert value[..i] == value;
  }

  method EscapeOne(c: char) returns (piece: string)
    ensures piece == if c in SPECIAL then Entity(c) else [c]
  {
    match c
    case '&' => piece := "&amp;";
    case '<' => piece := "&lt;";
    case '>' => piece := "&gt;";
    case '"' => piece := "&quot;";
    case '\'' => piece := "&apos;";
    case _ => piece := [c];
  }

  // ---------------------------------------------------------------- one replacing pass

  predicate StartsWith(s: string, prefix: string) { |prefix| <= |s| && s[..|prefix|] == prefix }

  /** Every occurrence of `pattern`, from left to right, replaced by `sub`. */
  function Replaced(s: string, pattern: string, sub: string): string
    requires pattern != ""
  {
    if s == "" then ""
    else if StartsWith(s, pattern) then sub + Replaced(s[|pattern|..], pattern, sub)
    else [s[0]] + Replaced(s[1..], pattern, sub)
  }

  lemma OccursHere(s: string, pattern: string, at: nat)
    requires at <= |s|
    ensures Occurs(s, pattern, at) <==> StartsWith(s[at..], pattern)
  {
    if at + |pattern| <= |s| { assert s[at..][..|pattern|] == s[at..at + |pattern|]; }
  }

  /** Text without an occurrence is passed over unchanged. */
  lemma {:induction false} PassOver(s: string, pattern: string, sub: string, from: nat, at: nat)
    requires pattern != "" && from <= at <= |s| && forall k :: from <= k < at ==> !Occurs(s, pattern, k)
    ensures Replaced(s[from..], pattern, sub) == s[from..at] + Replaced(s[at..], pattern, sub)
    decreases at - from
  {
    hide StartsWith, Occurs;
    if from == at {
      assert s[from..at] == "";
    } else {
      OccursHere(s, pattern, from);
      assert s[from..][1..] == s[from + 1..] && s[from..][0] == s[from];
      PassOver(s, pattern, sub, from + 1, at);
      assert s[from..at] == [s[from]] + s[from + 1..at];
    }
  }

  lemma NothingToReplace(s: string, pattern: string, sub: string, from: nat)
    requires pattern != "" && from <= |s| && forall k :: from <= k ==> !Occurs(s, pattern, k)
    ensures Replaced(s[from..], pattern, sub) == s[from..]
  {
    hide Occurs;
    PassOver(s, pattern, sub, from, |s|);
    assert s[from..|s|] == s[from..] && s[|s|..] == "";
  }

  /** One replacement in place, at the first occurrence from `from` on. */
  lemma ReplaceStep(s: string, pattern: string, sub: string, from: nat, at: nat)
    requires pattern != "" && from <= at && Occurs(s, pattern, at) && forall k :: from <= k < at ==>
             !Occurs(s, pattern, k)
    ensures var s' := s[..at] + sub + s[at + |pattern|..];
            && at + |sub| <= |s'| && s'[..at + |sub|] == s[..at] + sub
            && s[..from] + Replaced(s[from..], pattern, sub)
               == s'[..at + |sub|] + Replaced(s'[at + |sub|..], pattern, sub)
  {
    var s' := s[..at] + sub + s[at + |pattern|..];
    assert s'[..at + |sub|] == s[..at] + sub && s'[at + |sub|..] == s[at + |pattern|..];
    ReplaceHere(s, pattern, sub, at);
    PassOver(s, pattern, sub, from, at);
    assert s[..from] + (s[from..at] + (sub + Replaced(s[at + |pattern|..], pattern, sub)))
        == s[..at] + sub + Replaced(s[at + |pattern|..], pattern, sub) by {
      assert s[..from] + s[from..at] == s[..at];
    }
  }

  lemma ReplaceHere(s: string, pattern: string, sub: string, at: nat)
    requires pattern != "" && Occurs(s, pattern, at)
    ensures Replaced(s[at..], pattern, sub) == sub + Replaced(s[at + |pattern|..], pattern, sub)
  {
    OccursHere(s, pattern, at);
    assert s[at..][|pattern|..] == s[at + |pattern|..];
  }

  /** The find-and-replace loop of one pass. */
  method ReplaceAll(s: string, pattern: string, sub: string) returns (output: string)
    requires pattern != ""
    ensures output == Replaced(s, pattern, sub)
  {
    hide StartsWith, Occurs, Replaced;
    output := s;
    var position: nat := 0;
    assert s[..0] + Replaced(s[0..], pattern, sub) == Replaced(s, pattern, sub) by { assert s[0..] == s; }
    while true
      invariant position <= |output|
      invariant output[..position] + Replaced(output[position..], pattern, sub) == Replaced(s, pattern, sub)
      decreases |output| - position
    {
      var found := Find(output, pattern, position);
      if found.None? {
        NothingToReplace(output, pattern, sub, position);
        assert output[..position] + output[position..] == output;
        return;
      }
      FoundFits(output, pattern, found.value);
      ReplaceStep(output, pattern, sub, position, found.value);
      output := output[..found.value] + sub + output[found.value + |pattern|..];
      position := found.value + |sub|;
    }
  }

  lemma FoundFits(s: string, pattern: string, at: nat)
    requires Occurs(s, pattern, at)
    ensures at + |pattern| <= |s|
  {
  }

  function Unescaped(s: string): string {
    var s1 := Replaced(s, "&lt;", "<");
    var s2 := Replaced(s1, "&gt;", ">");
    var s3 := Replaced(s2, "&quot;", "\"");
    var s4 := Replaced(s3, "&apos;", "'");
    Replaced(s4, "&amp;", "&")
  }

  method XmlUnescape(s: string) returns (output: string)
    ensures output == Unescaped(s)
  {
    hide Replaced;
    output := s;
    output := ReplaceAll(output, "&lt;", "<");
    output := ReplaceAll(output, "&gt;", ">");
    output := ReplaceAll(output, "&quot;", "\"");
    output := ReplaceAll(output, "&apos;", "'");
    output := ReplaceAll(output, "&amp;", "&");
  }

  // ---------------------------------------------------------------- each pass undoes its own entity

  /** Text without an ampersand is passed over by every pass. */
  lemma {:induction false} PlainIsKept(t: string, u: string, pattern: string, sub: string)
    requires pattern != "" && pattern[0] == '&' && '&' !in t
    ensures Replaced(t + u, pattern, sub) == t + Replaced(u, pattern, sub)
  {
    if t == "" {
      assert t + u == u;
    } else {
      assert (t + u)[0] == t[0] && t[0] in t && (t + u)[1..] == t[1..] + u;
      assert !StartsWith(t + u, pattern);
      PlainIsKept(t[1..], u, pattern, sub);
      assert t == [t[0]] + t[1..];
    }
  }

  /** An entity other than `pattern` is passed over. */
  lemma OtherEntityIsKept(e: string, u: string, pattern: string, sub: string)
    requires 2 <= |e| && 2 <= |pattern| && pattern[0] == '&' && '&' !in e[1..]
    requires |pattern| <= |e| ==> e[..|pattern|] != pattern
    requires |e| < |pattern| ==> pattern[..|e|] != e
    ensures Replaced(e + u, pattern, sub) == e + Replaced(u, pattern, sub)
  {
    assert |pattern| <= |e| ==> (e + u)[..|pattern|] == e[..|pattern|];
    assert |e| < |pattern| <= |e + u| ==> (e + u)[..|pattern|][..|e|] == e;
    assert !StartsWith(e + u, pattern);
    assert (e + u)[1..] == e[1..] + u;
    PlainIsKept(e[1..], u, pattern, sub);
    assert e == [e[0]] + e[1..];
  }

  lemma EntityIsReplaced(e: string, u: string, sub: string)
    requires e != ""
    ensures Replaced(e + u, e, sub) == sub + Replaced(u, e, sub)
  {
    assert (e + u)[..|e|] == e && (e + u)[|e|..] == u;
  }

  /** Two different entities are never prefixes of each other. */
  lemma EntitiesDiffer(c: char, d: char)
    requires c in SPECIAL && d in SPECIAL && c != d
    ensures var e, p := Entity(c), Entity(d);
            && 2 <= |e| && 2 <= |p| && p[0] == '&' && '&' !in e[1..]
            && (|p| <= |e| ==> e[..|p|] != p) && (|e| < |p| ==> p[..|e|] != e)
  {
    EntityShape(c);
    EntityShape(d);
    var e, p := Entity(c), Entity(d);
    assert e[1] != p[1] || e[2] != p[2];
    if |p| <= |e| { assert e[..|p|][1] == e[1] && e[..|p|][2] == e[2]; }
    if |e| < |p| { assert p[..|e|][1] == p[1] && p[..|e|][2] == p[2]; }
  }

  lemma EntityShape(c: char)
    requires c in SPECIAL
    ensures var e := Entity(c);
            && 4 <= |e| && e[0] == '&' && '&' !in e[1..]
            && e[1] == (if c == '&' || c == '\'' then 'a' else if c == '<' then 'l' else if c == '>' then 'g' else 'q')
            && e[2] == (if c == '&' then 'm' else if c == '\'' then 'p' else if c == '"' then 'u' else 't')
  {
    match c
    case '&' => assert Entity(c) == "&amp;" && "&amp;"[1..] == "amp;";
    case '<' => assert Entity(c) == "&lt;" && "&lt;"[1..] == "lt;";
    case '>' => assert Entity(c) == "&gt;" && "&gt;"[1..] == "gt;";
    case '"' => assert Entity(c) == "&quot;" && "&quot;"[1..] == "quot;";
    case '\'' => assert Entity(c) == "&apos;" && "&apos;"[1..] == "apos;";
    case _ =>
  }

  /** `rest` is `special` without `c`. */
  predicate Removes(special: string, c: char, rest: string) {
    && (forall x <- special :: x in SPECIAL) && c in special
    && (forall x: char :: x in rest <==> x in special && x != c)
    && ('&' in special) && ('&' in rest || rest == "")
  }

  /** Replacing the entity of `c` leaves exactly the text in which `c` was not escaped. */
  lemma {:induction false} PassUndoes(s: string, special: string, c: char, rest: string)
    requires Removes(special, c, rest)
    ensures Entity(c) != ""
    ensures Replaced(EscapedIn(s, special), Entity(c), [c]) == EscapedIn(s, rest)
  {
    hide Entity, Replaced, StartsWith;
    EntityShape(c);
    if s == "" {
      assert Replaced("", Entity(c), [c]) == "" by { ReplacedNothing(Entity(c), [c]); }
    } else {
      PassUndoes(s[1..], special, c, rest);
      HeadUndone(s[0], EscapedIn(s[1..], special), special, c, rest);
    }
  }

  lemma ReplacedNothing(pattern: string, sub: string)
    requires pattern != ""
    ensures Replaced("", pattern, sub) == ""
  {
  }

  lemma HeadUndone(x: char, u: string, special: string, c: char, rest: string)
    requires Removes(special, c, rest) && Entity(c) != ""
    ensures Replaced((if x in special then Entity(x) else [x]) + u, Entity(c), [c])
         == (if x in rest then Entity(x) else [x]) + Replaced(u, Entity(c), [c])
  {
    hide Entity, Replaced, StartsWith;
    EntityShape(c);
    if x == c {
      EntityIsReplaced(Entity(c), u, [c]);
    } else if x in special {
      EntitiesDiffer(x, c);
      OtherEntityIsKept(Entity(x), u, Entity(c), [c]);
    } else {
      PlainIsKept([x], u, Entity(c), [c]);
    }
  }

  lemma {:induction false} NothingEscaped(s: string)
    ensures EscapedIn(s, "") == s
  {
    if s != "" { NothingEscaped(s[1..]); }
  }

  /** Five replacing passes invert the one-pass escape, for every string. */
  lemma UnescapeInvertsEscape(s: string)
    ensures Unescaped(Escaped(s)) == s
  {
    hide EscapedIn, Replaced;
    assert Entity('<') == "&lt;" && Entity('>') == "&gt;" && Entity('"') == "&quot;" && Entity('\'') == "&apos;"
           && Entity('&') == "&amp;";
    PassUndoes(s, SPECIAL, '<', "&>\"'");
    PassUndoes(s, "&>\"'", '>', "&\"'");
    PassUndoes(s, "&\"'", '"', "&'");
    PassUndoes(s, "&'", '\'', "&");
    PassUndoes(s, "&", '&', "");
    NothingEscaped(s);
  }

  /** Escaped text holds no markup. */
  lemma {:induction false} EscapedHasNoMarkup(s: string)
    ensures '<' !in Escaped(s) && '>' !in Escaped(s) && '"' !in Escaped(s) && '\'' !in Escaped(s)
  {
    if s != "" { EscapedHasNoMarkup(s[1..]); }
  }
}
