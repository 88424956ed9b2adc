/** The candidates can be sorted as the engine asks: a stable sort by falling score is one of the allowed sorters. */
module UnifiedSorting {
  import opened UnifiedSpec

  /** `c` stands behind every candidate of at least its score. */
  function Inserted(cs: seq<Candidate>, c: Candidate): seq<Candidate> {
    if cs == [] || cs[|cs| - 1].edge.score >= c.edge.score then cs + [c]
    else Inserted(cs[..|cs| - 1], c) + [cs[|cs| - 1]]
  }

  function StableSort(cs: seq<Candidate>): seq<Candidate> {
    if cs == [] then [] else Inserted(StableSort(cs[..|cs| - 1]), cs[|cs| - 1])
  }

  lemma {:induction false} InsertedIsSorted(cs: seq<Candidate>, c: Candidate)
    requires SortedByScore(cs)
    ensures SortedByScore(Inserted(cs, c)) && multiset(Inserted(cs, c)) == multiset(cs) + multiset{c}
    ensures forall x <- Inserted(cs, c) :: x in cs || x == c
  {
    if cs != [] && cs[|cs| - 1].edge.score < c.edge.score {
      var front, last := cs[..|cs| - 1], cs[|cs| - 1];
      InsertedIsSorted(front, c);
      assert cs == front + [last];
      LastIsLeast(Inserted(front, c), last);
    }
  }

  lemma LastIsLeast(cs: seq<Candidate>, last: Candidate)
    requires SortedByScore(cs) && forall x <- cs :: x.edge.score >= last.edge.score
    ensures SortedByScore(cs + [last])
  {
  }

  lemma {:induction false} StableSortSorts(cs: seq<Candidate>)
    ensures SortedByScore(StableSort(cs)) && multiset(StableSort(cs)) == multiset(cs)
  {
    hide Inserted, SortedByScore;
    if cs != [] {
      var front, last := cs[..|cs| - 1], cs[|cs| - 1];
      StableSortSorts(front);
      InsertedIsSorted(StableSort(front), last);
      assert cs == front + [last];
    } else {
      NothingSorted();
    }
  }

  lemma NothingSorted()
    ensures SortedByScore([])
  {
  }

  /** The hypothesis of every run of the engine can be met. */
  lemma SorterExists()
    ensures IsSorter(StableSort)
  {
    forall cs: seq<Candidate> ensures SortedByScore(StableSort(cs)) && multiset(StableSort(cs)) == multiset(cs) {
      StableSortSorts(cs);
    }
  }
}
