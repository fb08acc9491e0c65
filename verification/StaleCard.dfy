// A run of the title heal whose review card is stamped with a generation that
// is already past (crates/livrarr-db/src/pool.rs:1113-1127, 1209-1229).
module StaleCard {
  import opened Basics
  import opened ArticleCohorts
  import opened TitleHeal
  import Sorting

  // Three works of one author whose keys date from before articles and
  // subtitles were taken out of the main title.
  function Stored(id: WorkId, title: string, main: string, parsed: Parsed): RawWork {
    RawWork(Row(id, title, None, None, KeyOf(main), 1), true, Some(parsed), title, true)
  }

  function KeyOf(main: string): Key {
    Key(1, main, "", "", 7, "common")
  }

  const TheHobbit := Parsed("The Hobbit", None, None, "hobbit", "", "")
  const AHobbit := Parsed("A Hobbit", None, None, "hobbit", "", "")
  const ThereAndBack :=
    Parsed("Hobbit", Some("There and Back Again"), None, "hobbit", "there and back again", "")

  function Rows(): seq<RawWork> {
    [Stored(1, "The Hobbit", "the hobbit", TheHobbit),
     Stored(2, "A Hobbit", "a hobbit", AHobbit),
     Stored(3, "Hobbit: There and Back Again", "hobbit", ThereAndBack)]
  }

  function Shelf(): seq<HealWork> {
    WorksOf(Rows())
  }

  // The matching tolerates two titles that differ only by their article, and
  // the display form of the two is in lower case.
  ghost predicate Reads(display: string -> string, tolerated: (Parsed, Parsed) -> bool) {
    display("The Hobbit") == "the hobbit" && display("A Hobbit") == "a hobbit" && tolerated(TheHobbit, AHobbit)
  }

  lemma ArticlesStrip()
    ensures DiffersOnlyByArticle("the hobbit", "a hobbit")
  {
    var the, a := "the hobbit", "a hobbit";
    assert the[..2][0] == 't' && the[..3][0] == 't' && the[..4] == "the " && the[4..] == "hobbit";
    assert a[..2] == "a " && a[2..] == "hobbit";
    assert |the| == 10 && |a| == 8 && |"hobbit"| == 6;
  }

  // The articles are all that sets works 1 and 2 apart; work 3 has a subtitle.
  lemma OnePair(display: string -> string, tolerated: (Parsed, Parsed) -> bool)
    requires Reads(display, tolerated)
    ensures var test := PairTest(Shelf(), display, tolerated); test(0, 1) && !test(0, 2) && !test(1, 2)
  {
    var works := Shelf();
    ArticlesStrip();
    assert |works[2].parsed.normSubtitle| != |works[0].parsed.normSubtitle|;
  }

  // So the one class is that of works 1 and 2.
  lemma OneClass(
      display: string -> string, tolerated: (Parsed, Parsed) -> bool, g: Graph, components: seq<seq<nat>>)
    requires Reads(display, tolerated)
    requires ArticleGraph(Shelf(), PairTest(Shelf(), display, tolerated), g) && ArticleClasses(Shelf(), g, components)
    ensures components == [[0, 1]]
  {
    OnePair(display, tolerated);
    assert Edge(g, 0, 1) && !Edge(g, 0, 2) && !Edge(g, 1, 2);
    Unmatched(g);
    OnlyThePair(g, components);
  }

  lemma Unmatched(g: Graph)
    requires |g| == 3 && ValidGraph(g) && !Edge(g, 0, 2) && !Edge(g, 1, 2)
    ensures g[2] == {}
  {
    assert forall j :: j in g[2] ==> Edge(g, 2, j) && Edge(g, j, 2);
  }

  lemma OnlyThePair(g: Graph, components: seq<seq<nat>>)
    requires |g| == 3 && ValidGraph(g) && g[2] == {} && Edge(g, 0, 1) && ArticleClasses(Shelf(), g, components)
    ensures components == [[0, 1]]
  {
    forall n | 0 <= n < |components| ensures components[n] == [0, 1] {
      IsThePair(Shelf(), g, components[n]);
    }
    assert 1 in g[0];
    var c :| c in components && 0 in c;
    assert forall n :: 0 <= n < |components| ==> 0 in Elements(components[n]);
    OneLong(components, [0, 1]);
  }

  function At<T>(s: seq<T>, n: nat, other: T): T {
    if n < |s| then s[n] else other
  }

  lemma OneLong<T>(s: seq<T>, x: T)
    requires s != [] && forall n :: 0 <= n < |s| ==> s[n] == x
    requires forall i, j :: 0 <= i < j < |s| ==> s[i] != s[j]
    ensures s == [x]
  {
    assert At(s, 0, x) == x && At(s, 1, x) == x;
  }

  lemma IsThePair(works: seq<HealWork>, g: Graph, c: seq<nat>)
    requires |works| == |g| == 3 && works[0].Id() < works[1].Id()
    requires ValidGraph(g) && g[2] == {} && Edge(g, 0, 1) && Class(works, g, c)
    ensures c == [0, 1]
  {
    assert Joins(g, [0, 1], 0, 1) && Joins(g, [1, 0], 1, 0) by {
      assert Edge(g, 1, 0);
    }
    assert forall k :: 0 <= k < |c| ==> c[k] in c;
    ConnectedSelf(g, c[0]);
    assert 0 in c && 1 in c;
    var k :| 0 <= k < |c| && c[k] == 0;
    assert works[c[0]].Id() <= works[c[k]].Id();
    assert forall n :: 1 <= n < |c| ==> c[n] == 1;
    assert 1 in c[1..];
    OneLong(c[1..], 1);
  }

  // Work 1 absorbs work 2. The key that its title asks for is still held by
  // work 3, so it is not rewritten, but it rises for the fold: the card of
  // {1, 3} carries the generation that work 1 had before.
  method StaleRun(
      library: Library, display: string -> string, tolerated: (Parsed, Parsed) -> bool, safe: WorkId -> bool)
    returns (report: Report)
    requires Reads(display, tolerated) && safe(2)
    requires library.marker < POLICY_GENERATION && Selected(Rows(), library.table) && UniqueKeys(library.table)
    modifies library
    ensures exists card :: card in report.cards && card.workIds == {1, 3} && card.anchor == 1
              && 1 in library.table && library.table[1].generation == card.generation + 1
  {
    var ok;
    ghost var g, components;
    ok, report, g, components := library.Heal(true, Rows(), display, tolerated, safe);
    CardCanBeStale(display, tolerated, safe, g, components, report, library.table);
  }

  // The keys of the shelf are all different, so it can be loaded.
  method StaleStart() returns (library: Library)
    ensures fresh(library) && library.marker == 0
    ensures Selected(Rows(), library.table) && UniqueKeys(library.table)
  {
    library := new Library(map[1 := Rows()[0].row, 2 := Rows()[1].row, 3 := Rows()[2].row], 0);
    assert |"the hobbit"| == 10 && |"a hobbit"| == 8 && |"hobbit"| == 6;
  }

  lemma CardCanBeStale(
      display: string -> string, tolerated: (Parsed, Parsed) -> bool, safe: WorkId -> bool, g: Graph,
      components: seq<seq<nat>>, report: Report, t: Table)
    requires Reads(display, tolerated) && safe(2)
    requires ArticleGraph(Shelf(), PairTest(Shelf(), display, tolerated), g) && ArticleClasses(Shelf(), g, components)
    requires Healed(Shelf(), components, safe, report, t)
    ensures exists card :: card in report.cards && card.workIds == {1, 3} && card.anchor == 1
              && 1 in t && t[1].generation == card.generation + 1
  {
    OneClass(display, tolerated, g, components);
    ShelfPlan(safe);
    ShelfBlocked();
    BlockedHasCard(Shelf(), components, safe, report, t, KeyOf("hobbit"));
    var card :| card in report.cards && card.workIds == Cohort(Survivors(Shelf(), {2}), KeyOf("hobbit"));
    StampedWithStart(components, safe, report, t, card);
    GenerationRisesOnce(Shelf(), components, safe, report, t, Shelf()[0]);
  }

  lemma StampedWithStart(components: seq<seq<nat>>, safe: WorkId -> bool, report: Report, t: Table, card: Card)
    requires DistinctWorks(Shelf()) && Healed(Shelf(), components, safe, report, t)
    requires card in report.cards && card.workIds == {1, 3} && 1 !in report.rewritten
    ensures card.anchor == 1 && card.generation == 1
  {
    var works := Shelf();
    var cohort :| KnownOne(works, cohort) && CardFor(works, report.rewritten, cohort) == card;
    assert Sorting.Least({1, 3}, ByWorkId) == 1;
    OneWorkPerId(works, FindWork(works, 1), works[0]);
  }

  lemma ShelfBlocked()
    ensures DistinctWorks(Shelf())
    ensures Cohort(Survivors(Shelf(), {2}), KeyOf("hobbit")) == {1, 3}
    ensures KeyOf("hobbit") in BlockedKeys(Survivors(Shelf(), {2}))
    ensures 1 !in UnblockedIds(Survivors(Shelf(), {2}))
    ensures Shelf()[0] in Survivors(Shelf(), {2})
  {
    var works, key := Shelf(), KeyOf("hobbit");
    var alive := Survivors(works, {2});
    assert works[0] in alive && works[2] in alive;
    assert forall w :: w in alive ==> w == works[0] || w == works[2];
    assert |"the hobbit"| != |"hobbit"|;
    assert works[2].row.key == key && works[0].NeedsRewrite() && works[0].ProposedKey() == key;
    assert 1 in Cohort(alive, key) && 3 in Cohort(alive, key);
    TwoInCohort(alive, key, 1, 3);
  }

  lemma ShelfPlan(safe: WorkId -> bool)
    requires safe(2)
    ensures PlanFolds(Shelf(), [[0, 1]], safe) == FoldPlan({2}, {1}, {})
  {
    var works, c: seq<nat> := Shelf(), [0, 1];
    assert IndexedOne(works, c) && Foldable(works, c, safe);
    assert c[1..] == [1];
    assert works[c[1..][0]].Id() == 2;
    assert Ids(works, c[1..]) == {2};
    assert Winner(works, c) == {1};
    assert [c][..0] == [];
  }
}
