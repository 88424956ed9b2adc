/** The published session_timeline lines: each group's lines tell one growing story that ends with its final line. */
module CorrelationLog {
  import opened CorrelationSpec
  import opened CorrelationGroups

  /** Of two lines of the same group the earlier is not final, and the later shows the same members and, unless it is
      the final line, strictly more. */
  predicate Follows(x: Revision, y: Revision) {
    x.group == y.group ==>
      !x.final && x.members <= y.members && (!y.final ==> |x.members| < |y.members|)
  }

  predicate InOrder(log: seq<Revision>) {
    forall i, j :: 0 <= i < j < |log| ==> Follows(log[i], log[j])
  }

  /** Each line shows a justified chain of 2 to 8 members, numbered by its length. */
  predicate LineOk(x: Revision, nextGroup: nat) {
    && 1 <= x.group < nextGroup && 2 <= |x.members| <= MAX_GROUP_SIZE
    && x.revision == |x.members| - 1 && Justified(x.members)
  }

  /** A line of a live group is not final and shows a beginning of its members. */
  predicate Current(x: Revision, book: Book) {
    x.group in book.chains ==> !x.final && x.members <= book.chains[x.group].members
  }

  predicate Shown(log: seq<Revision>, g: nat, members: seq<GroupMember>, final: bool) {
    exists i :: 0 <= i < |log| && log[i].group == g && log[i].members == members && log[i].final == final
  }

  predicate Closed(log: seq<Revision>, g: nat) {
    exists i :: 0 <= i < |log| && log[i].group == g && log[i].final
  }

  /** Every live group has been shown as it is; every other group ever opened has its final line. */
  ghost predicate AllShown(log: seq<Revision>, book: Book) {
    && (forall g <- book.chains :: Shown(log, g, book.chains[g].members, false))
    && (forall g: nat :: 1 <= g < book.nextGroup && g !in book.chains ==> Closed(log, g))
  }

  ghost predicate LogOk(log: seq<Revision>, book: Book) {
    && (forall x <- log :: LineOk(x, book.nextGroup) && Current(x, book))
    && InOrder(log) && AllShown(log, book)
  }

  // ---------------------------------------------------------------- publishing a change

  function LineFor(g: nat, c: Chain): Revision { Revision(g, c.revision, false, c.members) }

  lemma ShownMono(log: seq<Revision>, more: seq<Revision>, g: nat, members: seq<GroupMember>, final: bool)
    requires Shown(log, g, members, final)
    ensures Shown(log + more, g, members, final)
  {
    var i :| 0 <= i < |log| && log[i].group == g && log[i].members == members && log[i].final == final;
    assert (log + more)[i] == log[i];
  }

  lemma ClosedMono(log: seq<Revision>, more: seq<Revision>, g: nat)
    requires Closed(log, g)
    ensures Closed(log + more, g)
  {
    var i :| 0 <= i < |log| && log[i].group == g && log[i].final;
    assert (log + more)[i] == log[i];
  }

  lemma LastShown(log: seq<Revision>, x: Revision)
    ensures Shown(log + [x], x.group, x.members, x.final)
    ensures x.final ==> Closed(log + [x], x.group)
  {
    assert (log + [x])[|log|] == x;
  }

  lemma AppendInOrder(log: seq<Revision>, x: Revision)
    requires InOrder(log) && forall y <- log :: Follows(y, x)
    ensures InOrder(log + [x])
  {
    hide Follows;
  }

  lemma LongerIfHolds(c: Chain, c': Chain, id: nat)
    requires c.members <= c'.members && HoldsId(c', id)
    ensures HoldsId(c, id) || |c.members| < |c'.members|
  {
    var i :| 0 <= i < |c'.members| && c'.members[i].id == id;
    if i < |c.members| { assert c.members[i].id == id; }
  }

  /** What a change means for the lines: the group's chain got strictly longer. */
  lemma ChangeGrows(book: Book, book': Book, g: nat, c: Chain, gained: set<nat>, now: int)
    requires Changes(book, book', g, c, gained, now) && gained != {}
    ensures g in book.chains ==> book.chains[g].members <= c.members && |book.chains[g].members| < |c.members|
    ensures g !in book.chains ==> g == book.nextGroup
    ensures book'.chains == book.chains[g := c] && ChainOk(c, now)
    ensures book'.nextGroup == if g in book.chains then book.nextGroup else g + 1
  {
    hide ChainOk, DistinctIds;
    var id :| id in gained;
    if g in book.chains { LongerIfHolds(book.chains[g], c, id); }
  }

  lemma LineKeeps(x: Revision, book: Book, book': Book, g: nat, c: Chain)
    requires LineOk(x, book.nextGroup) && Current(x, book)
    requires book'.chains == book.chains[g := c] && book'.nextGroup >= book.nextGroup
    requires if g in book.chains then
               book.chains[g].members <= c.members && |book.chains[g].members| < |c.members|
             else g == book.nextGroup
    ensures LineOk(x, book'.nextGroup) && Current(x, book') && Follows(x, LineFor(g, c))
  {
    hide Justified;
  }

  lemma AllShownKeeps(log: seq<Revision>, book: Book, book': Book, g: nat, c: Chain)
    requires AllShown(log, book) && book'.chains == book.chains[g := c]
    requires book'.nextGroup == if g in book.chains then book.nextGroup else g + 1
    requires g !in book.chains ==> g == book.nextGroup
    ensures AllShown(log + [LineFor(g, c)], book')
  {
    hide Shown, Closed;
    var log' := log + [LineFor(g, c)];
    forall h <- book'.chains ensures Shown(log', h, book'.chains[h].members, false) {
      LastShown(log, LineFor(g, c));
      if h != g { ShownMono(log, [LineFor(g, c)], h, book.chains[h].members, false); }
    }
    forall h: nat | 1 <= h < book'.nextGroup && h !in book'.chains ensures Closed(log', h) {
      ClosedMono(log, [LineFor(g, c)], h);
    }
  }

  /** Publishing the group that changed keeps the log sound. */
  lemma PublishKeeps(log: seq<Revision>, book: Book, book': Book, g: nat, c: Chain, gained: set<nat>, now: int)
    requires LogOk(log, book) && BookOk(book, now) && Changes(book, book', g, c, gained, now) && gained != {}
    ensures LogOk(log + [LineFor(g, c)], book')
  {
    hide LineOk, Current, Follows, AllShown, InOrder, Changes, OneGroupEach, ChainOk;
    ChangeGrows(book, book', g, c, gained, now);
    var x := LineFor(g, c);
    forall y <- log ensures LineOk(y, book'.nextGroup) && Current(y, book') && Follows(y, x) {
      LineKeeps(y, book, book', g, c);
    }
    AppendInOrder(log, x);
    NewLine(book, book', g, c, now);
    AllShownKeeps(log, book, book', g, c);
  }

  lemma NewLine(book: Book, book': Book, g: nat, c: Chain, now: int)
    requires AllChainsOk(book, now) && book.nextGroup >= 1 && ChainOk(c, now) && book'.chains == book.chains[g := c]
    requires book'.nextGroup == if g in book.chains then book.nextGroup else g + 1
    requires g !in book.chains ==> g == book.nextGroup
    ensures LineOk(LineFor(g, c), book'.nextGroup) && Current(LineFor(g, c), book')
  {
    hide Justified;
  }

  lemma SameChainsLog(log: seq<Revision>, book: Book, book': Book)
    requires LogOk(log, book) && book'.chains == book.chains && book'.nextGroup == book.nextGroup
    ensures LogOk(log, book')
  {
    hide LineOk, InOrder, Shown, Closed;
  }

  // ---------------------------------------------------------------- closing a group

  lemma ClosingLine(x: Revision, book: Book, g: nat, now: int)
    requires g in book.chains && LineOk(x, book.nextGroup) && Current(x, book)
    ensures Follows(x, Closing(g, book.chains[g])) && Current(x, book.(chains := book.chains - {g}))
  {
    hide Justified;
  }

  /** The final line of an expired group keeps the log sound. */
  lemma CloseKeeps(log: seq<Revision>, book: Book, g: nat, now: int)
    requires LogOk(log, book) && AllChainsOk(book, now) && g in book.chains
    ensures LogOk(log + [Closing(g, book.chains[g])], book.(chains := book.chains - {g}))
  {
    hide LineOk, Current, Follows, AllShown, InOrder, ChainOk;
    var x, book' := Closing(g, book.chains[g]), book.(chains := book.chains - {g});
    forall y <- log ensures Follows(y, x) && Current(y, book') {
      ClosingLine(y, book, g, now);
    }
    AppendInOrder(log, x);
    ClosedLine(book, g, now);
    AllShownCloses(log, book, g);
  }

  lemma ClosedLine(book: Book, g: nat, now: int)
    requires AllChainsOk(book, now) && g in book.chains
    ensures LineOk(Closing(g, book.chains[g]), book.nextGroup)
    ensures Current(Closing(g, book.chains[g]), book.(chains := book.chains - {g}))
  {
    hide Justified;
    assert ChainOk(book.chains[g], now);
  }

  lemma AllShownCloses(log: seq<Revision>, book: Book, g: nat)
    requires AllShown(log, book) && g in book.chains
    ensures AllShown(log + [Closing(g, book.chains[g])], book.(chains := book.chains - {g}))
  {
    hide Shown, Closed;
    var x, book' := Closing(g, book.chains[g]), book.(chains := book.chains - {g});
    forall h <- book'.chains ensures Shown(log + [x], h, book'.chains[h].members, false) {
      ShownMono(log, [x], h, book.chains[h].members, false);
    }
    forall h: nat | 1 <= h < book'.nextGroup && h !in book'.chains ensures Closed(log + [x], h) {
      LastShown(log, x);
      if h != g { ClosedMono(log, [x], h); }
    }
  }

  // ---------------------------------------------------------------- what a sound log says

  /** "Final" is final: after a group's final line no line of that group is ever published. */
  lemma FinalIsLast(log: seq<Revision>, book: Book, i: nat, j: nat)
    requires LogOk(log, book) && i < j < |log| && log[i].final
    ensures log[j].group != log[i].group
  {
    hide LineOk, Current, AllShown;
    assert Follows(log[i], log[j]);
  }

  /** A later line of the same group shows the earlier members in the same places, under a higher revision number
      unless it is the final line. */
  lemma StoriesOnlyGrow(log: seq<Revision>, book: Book, i: nat, j: nat)
    requires LogOk(log, book) && i < j < |log| && log[i].group == log[j].group
    ensures log[i].members <= log[j].members && log[i].revision <= log[j].revision
    ensures !log[j].final ==> log[i].revision < log[j].revision
  {
    hide Current, AllShown, Justified;
    assert Follows(log[i], log[j]);
    assert log[i] in log && log[j] in log;
  }
}
