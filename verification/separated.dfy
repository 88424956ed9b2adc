/** Texts joined with bars can be taken apart again when the parts before a bar hold none. */
module Separated {

  predicate BarFree(text: string) { '|' !in text }

  /** The first bar stands where the part in front of it ends, */
  lemma FirstBar(a: string, x: string)
    requires BarFree(a)
    ensures var s := a + "|" + x;
            && s[|a|] == '|' && s[..|a|] == a && s[|a| + 1..] == x && forall i :: 0 <= i < |a| ==> s[i] != '|'
  {
    var s := a + "|" + x;
    forall i | 0 <= i < |a| ensures s[i] != '|' { assert s[i] == a[i] && a[i] in a; }
  }

  /** and the last one where the part behind it begins. */
  lemma LastBar(x: string, a: string)
    requires BarFree(a)
    ensures var s := x + "|" + a;
            && s[|x|] == '|' && s[..|x|] == x && s[|x| + 1..] == a && forall i :: |x| < i < |s| ==> s[i] != '|'
  {
    var s := x + "|" + a;
    forall i | |x| < i < |s| ensures s[i] != '|' { assert s[i] == a[i - |x| - 1] && a[i - |x| - 1] in a; }
  }

  lemma SplitAtBar(a: string, x: string, b: string, y: string)
    requires BarFree(a) && BarFree(b) && a + "|" + x == b + "|" + y
    ensures a == b && x == y
  {
    hide BarFree;
    FirstBar(a, x);
    FirstBar(b, y);
    assert |a| == |b|;
  }

  lemma SplitAtLastBar(x: string, a: string, y: string, b: string)
    requires BarFree(a) && BarFree(b) && x + "|" + a == y + "|" + b
    ensures x == y && a == b
  {
    hide BarFree;
    LastBar(x, a);
    LastBar(y, b);
    assert |x| == |y|;
  }

  lemma BarFreeJoin(a: string, b: string)
    ensures BarFree(a + b) <==> BarFree(a) && BarFree(b)
  {
    if BarFree(a + b) {
      forall c | c in a ensures c in a + b {
        var i :| 0 <= i < |a| && a[i] == c;
        assert (a + b)[i] == c;
      }
      forall c | c in b ensures c in a + b {
        var i :| 0 <= i < |b| && b[i] == c;
        assert (a + b)[|a| + i] == c;
      }
    }
  }
}
