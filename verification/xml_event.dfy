/** The PowerShell event written by APP/src/applog_etw_collector.cpp and read by `ExtractXmlData`
    in APP/src/applog_decoder.cpp. */
module XmlEvent {
  import opened Text
  import opened XmlText

  function OpenTag(name: string): string { "<Data Name=\"" + name + "\">" }

  function QuotedTag(name: string): string { "<Data Name='" + name + "'>" }

  const CLOSE: string := "</Data>"

  /** The text between the opening tag that ends at `start` and the next closing tag. */
  function DataAt(xml: string, start: nat): string {
    match Find(xml, CLOSE, start)
    case None => ""
    case Some(end) => if start <= end <= |xml| then Unescaped(xml[start..end]) else ""
  }

  /** `ExtractXmlData`: the first tag with double quotes, or else the first with single quotes. */
  function ExtractXmlData(xml: string, name: string): string {
    match Find(xml, OpenTag(name), 0)
    case Some(at) => DataAt(xml, at + |OpenTag(name)|)
    case None =>
      match Find(xml, QuotedTag(name), 0)
      case None => ""
      case Some(at) => DataAt(xml, at + |QuotedTag(name)|)
  }

  method ExtractData(xml: string, name: string) returns (value: string)
    ensures value == ExtractXmlData(xml, name)
  {
    hide Unescaped, Occurs;
    var open := "<Data Name=\"" + name + "\">";
    var start := Find(xml, open, 0);
    if start == None {
      open := "<Data Name='" + name + "'>";
      start := Find(xml, open, 0);
    }
    if start == None { return ""; }
    var end := Find(xml, "</Data>", start.value + |open|);
    if end == None { return ""; }
    FoundFits(xml, "</Data>", end.value);
    value := XmlUnescape(xml[start.value + |open|..end.value]);
  }

  // ---------------------------------------------------------------- the event

  /** The text before the script. */
  function Head(): string {
    "<Event>" + "<EventID>4104" + "</EventID>" + "<EventData>" + OpenTag("ScriptBlockText")
  }

  const TAIL: string := "</EventData></Event>"

  function PowerShellXml(script: string, path: string): string {
    Head() + Escaped(script) + (CLOSE + (OpenTag("Path") + (Escaped(path) + (CLOSE + TAIL))))
  }

  // ---------------------------------------------------------------- where a tag is not

  /** `pattern` does not occur in `s` before position `n`. */
  ghost predicate NoneBefore(s: string, pattern: string, n: nat) {
    forall k: nat :: k < n ==> !Occurs(s, pattern, k)
  }

  lemma OccursAfter(t: string, u: string, pattern: string, k: nat)
    ensures Occurs(t + u, pattern, |t| + k) <==> Occurs(u, pattern, k)
  {
    if k + |pattern| <= |u| { assert (t + u)[|t| + k..|t| + k + |pattern|] == u[k..k + |pattern|]; }
  }

  lemma NoneBeforeBoth(t: string, u: string, pattern: string, n: nat)
    requires NoneBefore(t + u, pattern, |t|) && NoneBefore(u, pattern, n)
    ensures NoneBefore(t + u, pattern, |t| + n)
  {
    hide Occurs;
    forall k: nat | k < |t| + n ensures !Occurs(t + u, pattern, k) {
      if k >= |t| { OccursAfter(t, u, pattern, k - |t|); }
    }
  }

  /** A tag does not begin inside text without markup. */
  lemma NotInText(t: string, u: string, pattern: string)
    requires pattern != "" && pattern[0] == '<' && '<' !in t
    ensures NoneBefore(t + u, pattern, |t|)
  {
    forall k: nat | k < |t| ensures !Occurs(t + u, pattern, k) {
      assert t[k] in t;
      assert k + |pattern| <= |t + u| ==> (t + u)[k..k + |pattern|][0] == t[k];
    }
  }

  /** Nor at another tag that differs in character `m`, nor inside it. */
  lemma NotAtTag(tag: string, u: string, pattern: string, m: nat)
    requires m < |pattern| && pattern[0] == '<' && m < |tag| && tag[m] != pattern[m] && '<' !in tag[1..]
    ensures NoneBefore(tag + u, pattern, |tag|)
  {
    forall k: nat | k < |tag| ensures !Occurs(tag + u, pattern, k) {
      NotAt(tag, u, pattern, m, k);
    }
  }

  lemma NotAt(tag: string, u: string, pattern: string, m: nat, k: nat)
    requires m < |pattern| && pattern[0] == '<' && m < |tag| && tag[m] != pattern[m] && '<' !in tag[1..] && k < |tag|
    ensures !Occurs(tag + u, pattern, k)
  {
    var s := tag + u;
    if k + |pattern| <= |s| {
      assert s[k..k + |pattern|][0] == s[k] == tag[k] && s[k..k + |pattern|][m] == s[k + m];
      if k > 0 { assert tag[1..][k - 1] == tag[k]; }
    }
  }

  lemma {:induction false} FirstIs(s: string, pattern: string, from: nat, at: nat)
    requires from <= at && Occurs(s, pattern, at) && forall k: nat :: from <= k < at ==> !Occurs(s, pattern, k)
    ensures Find(s, pattern, from) == Some(at)
  {
    var r := Find(s, pattern, from);
    assert r.Some?;
    assert !(r.value < at) && !(at < r.value);
  }

  lemma OccursFirst(t: string, u: string)
    ensures Occurs(t + u, t, 0)
  {
    assert (t + u)[0..|t|] == t;
  }

  // ---------------------------------------------------------------- the closing tag

  /** Escaped text is read back up to the closing tag. */
  lemma DataReadsBack(before: string, value: string, after: string)
    ensures DataAt(before + (Escaped(value) + (CLOSE + after)), |before|) == value
  {
    hide Unescaped, Escaped, Occurs, Find;
    var body := Escaped(value);
    var rest := body + (CLOSE + after);
    var xml := before + rest;
    EscapedHasNoMarkup(value);
    NotInText(body, CLOSE + after, CLOSE);
    OccursFirst(CLOSE, after);
    OccursAfter(body, CLOSE + after, CLOSE, 0);
    OccursAfter(before, rest, CLOSE, |body|);
    forall k: nat | |before| <= k < |before| + |body| ensures !Occurs(xml, CLOSE, k) {
      OccursAfter(before, rest, CLOSE, k - |before|);
    }
    FirstIs(xml, CLOSE, |before|, |before| + |body|);
    assert xml[|before|..|before| + |body|] == body;
    UnescapeInvertsEscape(value);
  }

  // ---------------------------------------------------------------- the opening tags

  /** None of the tags before the script begins with the two characters of a data tag. */
  lemma NotInHead(u: string, pattern: string)
    requires 2 <= |pattern| && pattern[0] == '<' && pattern[1] == 'D'
    ensures NoneBefore("<Event>" + ("<EventID>4104" + ("</EventID>" + ("<EventData>" + u))), pattern, 41)
  {
    hide NoneBefore;
    assert "<Event>"[1..] == "Event>" && "<EventID>4104"[1..] == "EventID>4104";
    assert "</EventID>"[1..] == "/EventID>" && "<EventData>"[1..] == "EventData>";
    var u3 := "<EventData>" + u;
    var u2 := "</EventID>" + u3;
    var u1 := "<EventID>4104" + u2;
    NotAtTag("<EventData>", u, pattern, 1);
    NotAtTag("</EventID>", u3, pattern, 1);
    NotAtTag("<EventID>4104", u2, pattern, 1);
    NotAtTag("<Event>", u1, pattern, 1);
    NoneBeforeBoth("</EventID>", u3, pattern, 11);
    NoneBeforeBoth("<EventID>4104", u2, pattern, 21);
    NoneBeforeBoth("<Event>", u1, pattern, 34);
  }

  lemma HeadRegroups(u: string)
    ensures "<Event>" + ("<EventID>4104" + ("</EventID>" + ("<EventData>" + (OpenTag("ScriptBlockText") + u))))
            == Head() + u
    ensures |Head()| == 41 + |OpenTag("ScriptBlockText")|
  {
    hide OpenTag;
    var d := OpenTag("ScriptBlockText");
    assert "<Event>" + ("<EventID>4104" + ("</EventID>" + ("<EventData>" + (d + u))))
        == "<Event>" + "<EventID>4104" + "</EventID>" + "<EventData>" + d + u;
  }

  lemma TagShape(name: string)
    ensures 2 <= |OpenTag(name)| && OpenTag(name)[0] == '<' && OpenTag(name)[1] == 'D'
  {
    assert OpenTag(name)[..2] == "<D";
  }

  /** The script's tag is the first of its name. */
  lemma ScriptTagFound(u: string)
    ensures Find(Head() + u, OpenTag("ScriptBlockText"), 0) == Some(41)
  {
    hide OpenTag, Head, Find, Occurs;
    var d := OpenTag("ScriptBlockText");
    TagShape("ScriptBlockText");
    NotInHead(d + u, d);
    HeadRegroups(u);
    OccursFirst(d, u);
    FourTags(d + u, d);
    FirstIs(Head() + u, d, 0, 41);
  }

  lemma FourTags(u: string, pattern: string)
    requires Occurs(u, pattern, 0)
    ensures Occurs("<Event>" + ("<EventID>4104" + ("</EventID>" + ("<EventData>" + u))), pattern, 41)
  {
    hide Occurs;
    var u3 := "<EventData>" + u;
    var u2 := "</EventID>" + u3;
    var u1 := "<EventID>4104" + u2;
    OccursAfter("<EventData>", u, pattern, 0);
    OccursAfter("</EventID>", u3, pattern, 11);
    OccursAfter("<EventID>4104", u2, pattern, 21);
    OccursAfter("<Event>", u1, pattern, 34);
  }

  const OPENING: string := "<Data Name=\""

  /** A tag is the opening, the name and two characters more. */
  lemma TagParts(name: string)
    requires name != "" && '<' !in name
    ensures |OpenTag(name)| == |name| + 14 && OpenTag(name)[12] == name[0] && '<' !in OpenTag(name)[1..]
  {
    assert |OPENING| == 12 && OPENING[1..] == "Data Name=\"";
    assert OpenTag(name) == OPENING + name + "\">";
    TagTail(OPENING, name, "\">");
  }

  lemma TagTail(a: string, name: string, b: string)
    requires a != "" && name != "" && '<' !in a[1..] && '<' !in name && '<' !in b
    ensures '<' !in (a + name + b)[1..] && (a + name + b)[|a|] == name[0]
  {
    assert (a + name + b)[1..] == a[1..] + name + b;
  }

  lemma PathTagDiffers(u: string)
    ensures NoneBefore(OpenTag("ScriptBlockText") + u, OpenTag("Path"), |OpenTag("ScriptBlockText")|)
  {
    hide OpenTag;
    TagParts("ScriptBlockText");
    TagParts("Path");
    TagShape("Path");
    NotAtTag(OpenTag("ScriptBlockText"), u, OpenTag("Path"), 12);
  }

  /** Nothing before the path's tag is one, whatever the script. */
  lemma PathTagFound(script: string, u: string)
    ensures Find(Head() + (Escaped(script) + (CLOSE + (OpenTag("Path") + u))), OpenTag("Path"), 0)
         == Some(|Head()| + |Escaped(script)| + |CLOSE|)
  {
    hide OpenTag, Head, Find, Occurs, Escaped, NoneBefore;
    var d, p, body := OpenTag("ScriptBlockText"), OpenTag("Path"), Escaped(script);
    var u2 := CLOSE + (p + u);
    var u1 := body + u2;
    TagShape("Path");
    EscapedHasNoMarkup(script);
    PathStands(u);
    NotAtTag(CLOSE, p + u, p, 1) by { assert CLOSE[1..] == "/Data>"; }
    NotInText(body, u2, p);
    NoneBeforeBoth(body, u2, p, |CLOSE|);
    PathTagDiffers(u1);
    NoneBeforeBoth(d, u1, p, |body| + |CLOSE|);
    PathAfterHead(u1, |body| + |CLOSE|);
    OccursAfter(CLOSE, p + u, p, 0);
    OccursAfter(body, u2, p, |CLOSE|);
    OccursAfter(Head(), u1, p, |body| + |CLOSE|);
    FirstFrom(Head() + u1, p, |Head()| + |body| + |CLOSE|);
  }

  lemma PathStands(u: string)
    ensures Occurs(OpenTag("Path") + u, OpenTag("Path"), 0)
  {
    hide OpenTag;
    OccursFirst(OpenTag("Path"), u);
  }

  lemma FirstFrom(s: string, pattern: string, at: nat)
    requires Occurs(s, pattern, at) && NoneBefore(s, pattern, at)
    ensures Find(s, pattern, 0) == Some(at)
  {
    hide Occurs, Find;
    FirstIs(s, pattern, 0, at);
  }

  lemma PathAfterHead(u: string, n: nat)
    requires NoneBefore(OpenTag("ScriptBlockText") + u, OpenTag("Path"), |OpenTag("ScriptBlockText")| + n)
    ensures NoneBefore(Head() + u, OpenTag("Path"), |Head()| + n)
  {
    hide OpenTag, Head, NoneBefore;
    var d, p := OpenTag("ScriptBlockText"), OpenTag("Path");
    TagShape("Path");
    NotInHead(d + u, p);
    HeadRegroups(u);
    var u3 := "<EventData>" + (d + u);
    var u2 := "</EventID>" + u3;
    var u1 := "<EventID>4104" + u2;
    AfterFourTags(d + u, p, |d| + n);
  }

  lemma AfterFourTags(u: string, pattern: string, n: nat)
    requires 2 <= |pattern| && pattern[0] == '<' && pattern[1] == 'D' && NoneBefore(u, pattern, n)
    ensures NoneBefore("<Event>" + ("<EventID>4104" + ("</EventID>" + ("<EventData>" + u))), pattern, 41 + n)
  {
    hide NoneBefore;
    assert "<Event>"[1..] == "Event>" && "<EventID>4104"[1..] == "EventID>4104";
    assert "</EventID>"[1..] == "/EventID>" && "<EventData>"[1..] == "EventData>";
    var u3 := "<EventData>" + u;
    var u2 := "</EventID>" + u3;
    var u1 := "<EventID>4104" + u2;
    NotAtTag("<EventData>", u, pattern, 1);
    NotAtTag("</EventID>", u3, pattern, 1);
    NotAtTag("<EventID>4104", u2, pattern, 1);
    NotAtTag("<Event>", u1, pattern, 1);
    NoneBeforeBoth("<EventData>", u, pattern, n);
    NoneBeforeBoth("</EventID>", u3, pattern, 11 + n);
    NoneBeforeBoth("<EventID>4104", u2, pattern, 21 + n);
    NoneBeforeBoth("<Event>", u1, pattern, 34 + n);
  }

  // ---------------------------------------------------------------- the round trip

  lemma XmlRegroups(script: string, path: string)
    ensures PowerShellXml(script, path)
         == Head() + (Escaped(script) + (CLOSE + (OpenTag("Path") + (Escaped(path) + (CLOSE + TAIL)))))
    ensures PowerShellXml(script, path)
         == (Head() + Escaped(script) + CLOSE + OpenTag("Path")) + (Escaped(path) + (CLOSE + TAIL))
  {
    hide Head, OpenTag, Escaped, CLOSE, TAIL;
  }

  /** The script is read back whatever characters it and the path hold. */
  lemma ScriptReadsBack(script: string, path: string)
    ensures ExtractXmlData(PowerShellXml(script, path), "ScriptBlockText") == script
  {
    hide Head, OpenTag, Escaped, CLOSE, TAIL, Find, DataAt, PowerShellXml;
    var after := OpenTag("Path") + (Escaped(path) + (CLOSE + TAIL));
    XmlRegroups(script, path);
    ScriptTagFound(Escaped(script) + (CLOSE + after));
    DataReadsBack(Head(), script, after);
    HeadRegroups("");
  }

  /** So is the path. */
  lemma PathReadsBack(script: string, path: string)
    ensures ExtractXmlData(PowerShellXml(script, path), "Path") == path
  {
    hide Head, OpenTag, Escaped, CLOSE, TAIL, Find, DataAt, PowerShellXml;
    XmlRegroups(script, path);
    PathTagFound(script, Escaped(path) + (CLOSE + TAIL));
    DataReadsBack(Head() + Escaped(script) + CLOSE + OpenTag("Path"), path, TAIL);
  }

  // ---------------------------------------------------------------- documents of other writers

  ghost predicate OccursIn(s: string, pattern: string) { exists k: nat :: Occurs(s, pattern, k) }

  lemma FoundBehind(before: string, tag: string, rest: string)
    requires NoneBefore(before + (tag + rest), tag, |before|)
    ensures Find(before + (tag + rest), tag, 0) == Some(|before|)
  {
    hide Occurs, Find;
    OccursFirst(tag, rest);
    OccursAfter(before, tag + rest, tag, 0);
    FirstFrom(before + (tag + rest), tag, |before|);
  }

  lemma NotFound(s: string, pattern: string)
    requires !OccursIn(s, pattern)
    ensures Find(s, pattern, 0) == None
  {
    hide Occurs, Find;
    assert forall k: nat :: !Occurs(s, pattern, k);
  }

  /** The first element of the name with double quotes is read, wherever it stands. */
  lemma DoubleQuotedReadsBack(before: string, name: string, value: string, after: string)
    requires var tag := "<Data Name=\"" + name + "\">";
             NoneBefore(before + (tag + (Escaped(value) + ("</Data>" + after))), tag, |before|)
    ensures var tag := "<Data Name=\"" + name + "\">";
            ExtractXmlData(before + (tag + (Escaped(value) + ("</Data>" + after))), name) == value
  {
    hide Escaped, Find, DataAt, NoneBefore;
    var tag, rest := OpenTag(name), Escaped(value) + (CLOSE + after);
    FoundBehind(before, tag, rest);
    assert before + (tag + rest) == (before + tag) + rest;
    DataReadsBack(before + tag, value, after);
  }

  /** Where no element of the name has double quotes, the first one with single quotes is read instead. */
  lemma SingleQuotedReadsBack(before: string, name: string, value: string, after: string)
    requires var tag, double := "<Data Name='" + name + "'>", "<Data Name=\"" + name + "\">";
             var xml := before + (tag + (Escaped(value) + ("</Data>" + after)));
             NoneBefore(xml, tag, |before|) && !OccursIn(xml, double)
    ensures var tag := "<Data Name='" + name + "'>";
            ExtractXmlData(before + (tag + (Escaped(value) + ("</Data>" + after))), name) == value
  {
    hide Escaped, Find, DataAt, NoneBefore, OccursIn;
    var tag, rest := QuotedTag(name), Escaped(value) + (CLOSE + after);
    NotFound(before + (tag + rest), OpenTag(name));
    FoundBehind(before, tag, rest);
    assert before + (tag + rest) == (before + tag) + rest;
    DataReadsBack(before + tag, value, after);
  }

  /** Without an element of the name there is no value. */
  lemma MissingDataIsEmpty(xml: string, name: string)
    requires !OccursIn(xml, "<Data Name=\"" + name + "\">") && !OccursIn(xml, "<Data Name='" + name + "'>")
    ensures ExtractXmlData(xml, name) == ""
  {
    hide Find, OccursIn;
    NotFound(xml, OpenTag(name));
    NotFound(xml, QuotedTag(name));
  }
}
