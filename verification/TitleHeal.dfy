// The startup heal of provider titles (crates/livrarr-db/src/pool.rs:815-1270):
// article duplicates fold, titles are rewritten where no key collision looms,
// colliding cohorts become review cards. One transaction; the six-column key of
// idx_works_identity_v2 has to hold after every UPDATE in it.
module TitleHeal {
  import opened Basics
  import opened ArticleCohorts
  import opened Sorting

  type WorkId = int

  datatype Key = Key(user: int, main: string, subtitle: string, volume: string, author: int, distinction: string)

  datatype Row = Row(
    id: WorkId, title: string, subtitle: Option<string>, volume: Option<string>, key: Key, generation: int)

  // `title_parts_from_provider(title, subtitle)`; the parser is not modelled.
  datatype Parsed = Parsed(
    main: string, subtitle: Option<string>, volume: Option<string>,
    normMain: string, normSubtitle: string, normVolume: string)

  // `tidied` is `collapse_whitespace(row.title)`.
  datatype HealWork = HealWork(row: Row, parsed: Parsed, tidied: string, foldEligible: bool) {
    function Id(): WorkId { row.id }

    function ProposedKey(): Key {
      row.key.(main := parsed.normMain, subtitle := parsed.normSubtitle, volume := parsed.normVolume)
    }

    predicate NeedsRewrite() {
      !(parsed.main == tidied && parsed.subtitle == row.subtitle && ProposedKey() == row.key)
    }

    function Rewritten(): Row {
      Row(row.id, parsed.main, parsed.subtitle, parsed.volume, ProposedKey(), row.generation + 1)
    }
  }

  // A selected row, with what the parser makes of its title: None where the
  // title has no readable main part. The row is decoded with an author, so a
  // work whose primary author is NULL cannot be read at all.
  datatype RawWork = RawWork(row: Row, authored: bool, parsed: Option<Parsed>, tidied: string, foldEligible: bool)

  predicate AllRead(raw: seq<RawWork>) {
    forall k :: 0 <= k < |raw| ==> raw[k].authored && raw[k].parsed.Some?
  }

  function WorksOf(raw: seq<RawWork>): (works: seq<HealWork>)
    requires AllRead(raw)
    ensures |works| == |raw|
    ensures forall k :: 0 <= k < |raw| ==>
              works[k] == HealWork(raw[k].row, raw[k].parsed.value, raw[k].tidied, raw[k].foldEligible)
  {
    seq(|raw|, k requires 0 <= k < |raw| => HealWork(raw[k].row, raw[k].parsed.value, raw[k].tidied,
        raw[k].foldEligible))
  }

  // A GroupIdentity card: the cohort and the generation it is stamped with.
  datatype Card = Card(workIds: set<WorkId>, anchor: WorkId, generation: int)

  type Table = map<WorkId, Row>

  ghost predicate UniqueKeys(t: Table) {
    forall a, b :: a in t && b in t && a != b ==> t[a].key != t[b].key
  }

  ghost predicate DistinctWorks(works: seq<HealWork>) {
    forall i, j :: 0 <= i < j < |works| ==> works[i].Id() != works[j].Id()
  }

  ghost predicate Loaded(works: seq<HealWork>, t: Table) {
    && DistinctWorks(works)
    && (forall id :: id in t <==> exists i :: 0 <= i < |works| && works[i].Id() == id)
    && forall i :: 0 <= i < |works| ==> works[i].Id() in t && t[works[i].Id()] == works[i].row
  }

  // The SELECT at the start: every row once.
  ghost predicate Selected(raw: seq<RawWork>, t: Table) {
    && (forall i, j :: 0 <= i < j < |raw| ==> raw[i].row.id != raw[j].row.id)
    && (forall id :: id in t <==> exists i :: 0 <= i < |raw| && raw[i].row.id == id)
    && forall i :: 0 <= i < |raw| ==> raw[i].row.id in t && t[raw[i].row.id] == raw[i].row
  }

  lemma SelectedIsLoaded(raw: seq<RawWork>, t: Table)
    requires Selected(raw, t) && AllRead(raw)
    ensures Loaded(WorksOf(raw), t)
  {
    var works := WorksOf(raw);
    assert forall i :: 0 <= i < |works| ==> works[i].Id() == raw[i].row.id;
    forall id ensures id in t <==> exists i :: 0 <= i < |works| && works[i].Id() == id {
      if id in t {
        var i :| 0 <= i < |raw| && raw[i].row.id == id;
        assert works[i].Id() == id;
      }
    }
  }

  // The works that no fold removed.
  function Survivors(works: seq<HealWork>, folded: set<WorkId>): set<HealWork> {
    set w | w in works && w.Id() !in folded
  }

  function Cohort(alive: set<HealWork>, key: Key): set<WorkId> {
    set w | w in alive && (w.row.key == key || (w.NeedsRewrite() && w.ProposedKey() == key)) :: w.Id()
  }

  function BlockedKeys(alive: set<HealWork>): set<Key> {
    set w | w in alive && w.NeedsRewrite() && |Cohort(alive, w.ProposedKey())| > 1 :: w.ProposedKey()
  }

  // The rewrites that go ahead.
  predicate Unblocked(alive: set<HealWork>, w: HealWork) {
    w.NeedsRewrite() && w.ProposedKey() !in BlockedKeys(alive)
  }

  function UnblockedIds(alive: set<HealWork>): set<WorkId> {
    set w | w in alive && Unblocked(alive, w) :: w.Id()
  }

  // A work's row once the ids in `done` are rewritten and those in `bumped`
  // have had their generation raised.
  function RowAfter(w: HealWork, done: set<WorkId>, bumped: set<WorkId>): Row {
    var base := if w.Id() in done then w.Rewritten() else w.row;
    if w.Id() in bumped then base.(generation := base.generation + 1) else base
  }

  ghost predicate Stands(t: Table, alive: set<HealWork>, done: set<WorkId>, bumped: set<WorkId>) {
    && (forall id :: id in t ==> exists w :: w in alive && w.Id() == id)
    && forall w :: w in alive ==> w.Id() in t && t[w.Id()] == RowAfter(w, done, bumped)
  }

  ghost predicate SameId(v: HealWork, w: HealWork) {
    v.Id() == w.Id()
  }

  ghost predicate Separate(alive: set<HealWork>) {
    forall v, w :: v in alive && w in alive && SameId(v, w) ==> v == w
  }

  ghost predicate KeysApart(alive: set<HealWork>) {
    forall v, w :: v in alive && w in alive && v.row.key == w.row.key ==> SameId(v, w)
  }

  lemma TwoInCohort(alive: set<HealWork>, key: Key, a: WorkId, b: WorkId)
    requires a in Cohort(alive, key) && b in Cohort(alive, key) && a != b
    ensures |Cohort(alive, key)| > 1
  {
    Smaller({a, b}, Cohort(alive, key));
  }

  // An unblocked rewrite has its new key to itself: nobody holds it and nobody
  // else asks for it.
  lemma AloneOnKey(alive: set<HealWork>, v: HealWork, w: HealWork)
    requires v in alive && w in alive && Unblocked(alive, w)
    requires v.row.key == w.ProposedKey() || (v.NeedsRewrite() && v.ProposedKey() == w.ProposedKey())
    ensures SameId(v, w)
  {
    var key := w.ProposedKey();
    assert w.Id() in Cohort(alive, key) && v.Id() in Cohort(alive, key);
    assert |Cohort(alive, key)| > 1 ==> key in BlockedKeys(alive);
    if v.Id() != w.Id() {
      TwoInCohort(alive, key, v.Id(), w.Id());
    }
  }

  // Whichever unblocked rewrites have been executed so far, the six-column key
  // is unique.
  lemma EveryStepIsUnique(t: Table, alive: set<HealWork>, done: set<WorkId>, bumped: set<WorkId>)
    requires Separate(alive) && KeysApart(alive) && done <= UnblockedIds(alive)
    requires Stands(t, alive, done, bumped)
    ensures UniqueKeys(t)
  {
    forall a, b | a in t && b in t && a != b ensures t[a].key != t[b].key {
      var v :| v in alive && v.Id() == a;
      var w :| w in alive && w.Id() == b;
      KeysDiffer(alive, done, bumped, v, w);
    }
  }

  lemma KeysDiffer(alive: set<HealWork>, done: set<WorkId>, bumped: set<WorkId>, v: HealWork, w: HealWork)
    requires Separate(alive) && KeysApart(alive) && done <= UnblockedIds(alive)
    requires v in alive && w in alive && !SameId(v, w)
    ensures RowAfter(v, done, bumped).key != RowAfter(w, done, bumped).key
  {
    if v.Id() in done { DoneIsUnblocked(alive, done, v); }
    if w.Id() in done { DoneIsUnblocked(alive, done, w); }
    if RowAfter(v, done, bumped).key == RowAfter(w, done, bumped).key {
      if w.Id() in done {
        AloneOnKey(alive, v, w);
      } else if v.Id() in done {
        AloneOnKey(alive, w, v);
      }
    }
  }

  lemma DoneIsUnblocked(alive: set<HealWork>, done: set<WorkId>, w: HealWork)
    requires Separate(alive) && done <= UnblockedIds(alive) && w in alive && w.Id() in done
    ensures Unblocked(alive, w)
  {
    var u :| u in alive && Unblocked(alive, u) && u.Id() == w.Id();
    assert SameId(u, w);
  }

  // ------------------------------------------------------------------
  // Folding the article cohorts
  // ------------------------------------------------------------------

  predicate IndexedOne(works: seq<HealWork>, c: seq<nat>) {
    c != [] && forall k :: 0 <= k < |c| ==> c[k] < |works|
  }

  ghost predicate AllIndexed(works: seq<HealWork>, components: seq<seq<nat>>) {
    forall n :: 0 <= n < |components| ==> IndexedOne(works, components[n])
  }

  // Every work but the first may go: the test of
  // `article_duplicate_is_safe_to_fold` is the parameter `safe`.
  predicate Foldable(works: seq<HealWork>, c: seq<nat>, safe: WorkId -> bool)
    requires IndexedOne(works, c)
  {
    forall k :: 1 <= k < |c| ==> works[c[k]].foldEligible && safe(works[c[k]].Id())
  }

  function Ids(works: seq<HealWork>, c: seq<nat>): set<WorkId>
    requires forall k :: 0 <= k < |c| ==> c[k] < |works|
  {
    set k | 0 <= k < |c| :: works[c[k]].Id()
  }

  lemma IdsSnoc(works: seq<HealWork>, c: seq<nat>, x: nat)
    requires x < |works| && forall k :: 0 <= k < |c| ==> c[k] < |works|
    ensures Ids(works, c + [x]) == Ids(works, c) + {works[x].Id()}
  {
    var d := c + [x];
    assert d[|c|] == x && forall k :: 0 <= k < |c| ==> d[k] == c[k];
    forall id | id in Ids(works, c) + {works[x].Id()} ensures id in Ids(works, d) {
      if id == works[x].Id() {
        assert works[d[|c|]].Id() == id;
      } else {
        var k :| 0 <= k < |c| && works[c[k]].Id() == id;
        assert works[d[k]].Id() == id;
      }
    }
  }

  // `folded_winners` gets an entry per fold, so a lone work never enters it.
  function Winner(works: seq<HealWork>, c: seq<nat>): set<WorkId>
    requires IndexedOne(works, c)
  {
    if |c| > 1 then {works[c[0]].Id()} else {}
  }

  datatype FoldPlan = FoldPlan(folded: set<WorkId>, winners: set<WorkId>, cohorts: set<set<WorkId>>)

  function PlanFolds(works: seq<HealWork>, components: seq<seq<nat>>, safe: WorkId -> bool): FoldPlan
    requires AllIndexed(works, components)
  {
    if components == [] then FoldPlan({}, {}, {})
    else
      var front := PlanFolds(works, components[..|components| - 1], safe);
      var c := components[|components| - 1];
      if Foldable(works, c, safe)
      then FoldPlan(front.folded + Ids(works, c[1..]), front.winners + Winner(works, c), front.cohorts)
      else front.(cohorts := front.cohorts + {Ids(works, c)})
  }

  // What one run of the heal plans and reports.
  datatype Report = Report(plan: FoldPlan, rewritten: set<WorkId>, blocked: set<Key>, cards: set<Card>)

  const NOTHING := Report(FoldPlan({}, {}, {}), {}, {}, {})

  // `IDENTITY_TITLE_POLICY_GENERATION`.
  const POLICY_GENERATION := 2

  class Library {
    var table: Table
    // The stored `identity_title_policy_generation`; 0 where none parses.
    var marker: int

    constructor (table: Table, marker: int)
      ensures this.table == table && this.marker == marker
    {
      this.table, this.marker := table, marker;
    }

    // The whole heal: it fails only on a work that cannot be read, before the
    // first write. `merging` is `WORK_MERGING_AVAILABLE`, `safe` the fold test
    // of one work; `display` and `tolerated` are the parameters of PairTest.
    method Heal(
        merging: bool, raw: seq<RawWork>, display: string -> string, tolerated: (Parsed, Parsed) -> bool,
        safe: WorkId -> bool)
      returns (ok: bool, report: Report, ghost g: Graph, ghost components: seq<seq<nat>>)
      requires Selected(raw, table) && UniqueKeys(table)
      modifies this
      ensures UniqueKeys(table)
      ensures ok <==> !merging || old(marker) >= POLICY_GENERATION || AllRead(raw)
      ensures !ok || !merging || old(marker) >= POLICY_GENERATION ==>
                report == NOTHING && table == old(table) && marker == old(marker)
      ensures ok && merging && old(marker) < POLICY_GENERATION ==>
                var works := WorksOf(raw);
                && ArticleGraph(works, PairTest(works, display, tolerated), g) && ArticleClasses(works, g, components)
                && Healed(works, components, safe, report, table)
                && marker == if report.blocked == {} then POLICY_GENERATION else old(marker)
    {
      ok, report, g, components := true, NOTHING, [], [];
      if !merging || marker >= POLICY_GENERATION {
        return;
      }
      if !AllRead(raw) {
        ok := false;
        return;
      }
      var works := WorksOf(raw);
      SelectedIsLoaded(raw, table);
      var classes;
      classes, g := FindClasses(works, PairTest(works, display, tolerated));
      components := classes;
      ok, report := HealClasses(works, classes, safe, g);
      if report.blocked == {} {
        marker := POLICY_GENERATION;
      }
    }

    // The heal once the article cohorts are known.
    method HealClasses(works: seq<HealWork>, components: seq<seq<nat>>, safe: WorkId -> bool, ghost g: Graph)
      returns (ok: bool, report: Report)
      requires Loaded(works, table) && UniqueKeys(table) && ArticleClasses(works, g, components)
      modifies `table
      ensures ok && UniqueKeys(table) && Healed(works, components, safe, report, table)
    {
      var plan := FoldAll(works, components, safe);
      ghost var alive := Survivors(works, plan.folded);
      FoldedStands(old(table), works, plan.folded);
      var proposals, blocked, crowds := PlanRewrites(works, plan.folded);
      var rewritten := set w | w in proposals && w.ProposedKey() !in blocked :: w.Id();
      GoingIsUnblocked(alive, proposals, blocked, rewritten);
      CohortsAreWorks(works, g, components, safe, plan, blocked);
      var cards := MintAll(works, rewritten, plan.cohorts + crowds);
      ok := RewriteAll(proposals, blocked, alive);
      WinnersSurvive(works, g, components, safe, plan);
      ok := BumpWinners(works, plan.winners, rewritten, alive);
      EveryStepIsUnique(table, alive, rewritten, plan.winners - rewritten);
      report := Report(plan, rewritten, blocked, cards);
    }

    // UPDATE ... WHERE id = ? AND identity_generation = ?, under the unique index.
    method Update(row: Row, expected: int) returns (ok: bool)
      modifies `table
      ensures ok <==> && row.id in old(table) && old(table)[row.id].generation == expected
                      && forall b :: b in old(table) && b != row.id ==> old(table)[b].key != row.key
      ensures table == if ok then old(table)[row.id := row] else old(table)
    {
      ok := row.id in table && table[row.id].generation == expected
            && forall b :: b in table.Keys ==> b == row.id || table[b].key != row.key;
      if ok {
        table := table[row.id := row];
      }
    }

    method FoldAll(works: seq<HealWork>, components: seq<seq<nat>>, safe: WorkId -> bool) returns (plan: FoldPlan)
      requires AllIndexed(works, components)
      modifies `table
      ensures plan == PlanFolds(works, components, safe)
      ensures table == old(table) - plan.folded
    {
      plan := FoldPlan({}, {}, {});
      for n := 0 to |components|
        invariant plan == PlanFolds(works, components[..n], safe)
        invariant table == old(table) - plan.folded
      {
        var c := components[n];
        assert components[..n + 1][..n] == components[..n];
        var ok := true;
        var k := 1;
        while k < |c| && ok
          invariant 1 <= k <= |c|
          invariant ok ==> forall j :: 1 <= j < k ==> works[c[j]].foldEligible && safe(works[c[j]].Id())
          invariant !ok ==> !Foldable(works, c, safe)
        {
          ok := works[c[k]].foldEligible && safe(works[c[k]].Id());
          k := k + 1;
        }
        assert ok <==> Foldable(works, c, safe);
        if ok {
          AbsorbLosers(works, c);
          plan := FoldPlan(plan.folded + Ids(works, c[1..]), plan.winners + Winner(works, c), plan.cohorts);
        } else {
          plan := plan.(cohorts := plan.cohorts + {Ids(works, c)});
        }
      }
      assert components[..|components|] == components;
    }

    // `absorb_article_duplicate` of every loser: its work row goes.
    method AbsorbLosers(works: seq<HealWork>, c: seq<nat>)
      requires IndexedOne(works, c)
      modifies `table
      ensures table == old(table) - Ids(works, c[1..])
    {
      for k := 1 to |c|
        invariant table == old(table) - Ids(works, c[1..k])
      {
        assert c[1..k + 1] == c[1..k] + [c[k]];
        IdsSnoc(works, c[1..k], c[k]);
        table := table - {works[c[k]].Id()};
      }
      assert c[1..|c|] == c[1..];
    }

    // One planned UPDATE: it is never refused, and the key stays unique.
    method RewriteOne(w: HealWork, ghost alive: set<HealWork>, ghost done: set<WorkId>) returns (ok: bool)
      requires Separate(alive) && KeysApart(alive) && done <= UnblockedIds(alive)
      requires w in alive && Unblocked(alive, w) && w.Id() !in done
      requires Stands(table, alive, done, {})
      modifies `table
      ensures ok && Stands(table, alive, done + {w.Id()}, {}) && UniqueKeys(table)
    {
      RewriteStands(table, alive, done, w);
      ok := Update(w.Rewritten(), w.row.generation);
    }

    // The rewrites that no blocked key stops.
    method RewriteAll(
        proposals: seq<HealWork>, blocked: set<Key>, ghost alive: set<HealWork>) returns (ok: bool)
      requires Separate(alive) && KeysApart(alive) && blocked == BlockedKeys(alive)
      requires Proposals(alive, proposals)
      requires Stands(table, alive, {}, {})
      modifies `table
      ensures ok && Stands(table, alive, UnblockedIds(alive), {})
    {
      ok := true;
      for i := 0 to |proposals|
        invariant ok && Stands(table, alive, UnblockedAmong(alive, proposals[..i]), {})
      {
        var w := proposals[i];
        UnblockedStep(alive, proposals, i);
        if w.ProposedKey() !in blocked {
          NotYetDone(alive, proposals, i);
          ok := RewriteOne(w, alive, UnblockedAmong(alive, proposals[..i]));
        }
      }
      UnblockedAll(alive, proposals);
    }

    // A winner that no rewrite has claimed still gets its one generation.
    method BumpWinners(
        works: seq<HealWork>, winners: set<WorkId>, rewritten: set<WorkId>, ghost alive: set<HealWork>)
      returns (ok: bool)
      requires Separate(alive) && KeysApart(alive) && rewritten == UnblockedIds(alive)
      requires forall w :: w in alive ==> w in works
      requires DistinctWorks(works) && forall id :: id in winners ==> exists w :: w in alive && w.Id() == id
      requires Stands(table, alive, rewritten, {})
      modifies `table
      ensures ok && Stands(table, alive, rewritten, winners - rewritten)
    {
      ok := true;
      var left := winners - rewritten;
      while left != {}
        invariant ok && left <= winners - rewritten
        invariant Stands(table, alive, rewritten, winners - rewritten - left)
        decreases left
      {
        ghost var some := AnElement(left);
        var id :| id in left;
        ghost var bumped := winners - rewritten - left;
        left := left - {id};
        assert winners - rewritten - left == bumped + {id};
        ok := BumpOne(works, id, alive, rewritten, bumped);
      }
      assert winners - rewritten - {} == winners - rewritten;
    }

    method BumpOne(
        works: seq<HealWork>, id: WorkId, ghost alive: set<HealWork>, ghost rewritten: set<WorkId>,
        ghost bumped: set<WorkId>)
      returns (ok: bool)
      requires Separate(alive) && KeysApart(alive) && rewritten == UnblockedIds(alive)
      requires forall w :: w in alive ==> w in works
      requires DistinctWorks(works) && exists w :: w in alive && w.Id() == id
      requires id !in rewritten && id !in bumped && Stands(table, alive, rewritten, bumped)
      modifies `table
      ensures ok && Stands(table, alive, rewritten, bumped + {id})
    {
      ghost var w :| w in alive && w.Id() == id;
      var found := FindWork(works, id);
      OneWorkPerId(works, found, w);
      EveryStepIsUnique(table, alive, rewritten, bumped);
      assert table[id] == w.row;
      ok := Update(found.row.(generation := found.row.generation + 1), found.row.generation);
      BumpStands(old(table), alive, rewritten, bumped, w);
    }
  }

  function FindWork(works: seq<HealWork>, id: WorkId): (w: HealWork)
    requires exists v :: v in works && v.Id() == id
    ensures w in works && w.Id() == id
  {
    if works[0].Id() == id then works[0] else FindWork(works[1..], id)
  }

  lemma OneWorkPerId(works: seq<HealWork>, v: HealWork, w: HealWork)
    requires DistinctWorks(works) && v in works && w in works && v.Id() == w.Id()
    ensures v == w
  {
    var i :| 0 <= i < |works| && works[i] == v;
    var j :| 0 <= j < |works| && works[j] == w;
  }

  lemma BumpStands(
      t: Table, alive: set<HealWork>, done: set<WorkId>, bumped: set<WorkId>, w: HealWork)
    requires Separate(alive) && w in alive && w.Id() !in done && w.Id() !in bumped
    requires Stands(t, alive, done, bumped)
    ensures Stands(t[w.Id() := w.row.(generation := w.row.generation + 1)], alive, done, bumped + {w.Id()})
  {
    var t' := t[w.Id() := w.row.(generation := w.row.generation + 1)];
    forall v | v in alive ensures v.Id() in t' && t'[v.Id()] == RowAfter(v, done, bumped + {w.Id()}) {
      if v.Id() == w.Id() {
        assert SameId(v, w);
      }
    }
  }

  // The works to rewrite, each once.
  ghost predicate Proposals(alive: set<HealWork>, proposals: seq<HealWork>) {
    && (forall w :: w in proposals <==> w in alive && w.NeedsRewrite())
    && forall i, j :: 0 <= i < j < |proposals| ==> proposals[i] != proposals[j]
  }

  ghost function UnblockedAmong(alive: set<HealWork>, proposals: seq<HealWork>): set<WorkId> {
    set w | w in proposals && Unblocked(alive, w) :: w.Id()
  }

  lemma UnblockedStep(alive: set<HealWork>, proposals: seq<HealWork>, i: nat)
    requires i < |proposals|
    ensures UnblockedAmong(alive, proposals[..i + 1])
         == UnblockedAmong(alive, proposals[..i])
            + (if Unblocked(alive, proposals[i]) then {proposals[i].Id()} else {})
  {
    assert proposals[..i + 1] == proposals[..i] + [proposals[i]];
    assert forall v :: v in proposals[..i + 1] <==> v in proposals[..i] || v == proposals[i];
  }

  lemma UnblockedAll(alive: set<HealWork>, proposals: seq<HealWork>)
    requires Proposals(alive, proposals)
    ensures UnblockedAmong(alive, proposals[..|proposals|]) == UnblockedIds(alive)
  {
    assert proposals[..|proposals|] == proposals;
    forall id | id in UnblockedIds(alive) ensures id in UnblockedAmong(alive, proposals) {
      var w :| w in alive && Unblocked(alive, w) && w.Id() == id;
      assert w in proposals;
    }
  }

  lemma NotYetDone(alive: set<HealWork>, proposals: seq<HealWork>, i: nat)
    requires Separate(alive) && i < |proposals|
    requires Proposals(alive, proposals)
    ensures proposals[i].Id() !in UnblockedAmong(alive, proposals[..i])
    ensures UnblockedAmong(alive, proposals[..i]) <= UnblockedIds(alive)
  {
    forall v | v in proposals[..i] ensures v.Id() != proposals[i].Id() && v in alive {
      assert v in proposals;
      if SameId(v, proposals[i]) {
        assert v == proposals[i];
      }
    }
  }

  lemma RewriteStands(t: Table, alive: set<HealWork>, done: set<WorkId>, w: HealWork)
    requires Separate(alive) && KeysApart(alive) && done <= UnblockedIds(alive)
    requires w in alive && Unblocked(alive, w) && w.Id() !in done
    requires Stands(t, alive, done, {})
    ensures w.Id() in t && t[w.Id()].generation == w.row.generation
    ensures forall b :: b in t && b != w.Id() ==> t[b].key != w.ProposedKey()
    ensures Stands(t[w.Id() := w.Rewritten()], alive, done + {w.Id()}, {})
    ensures UniqueKeys(t[w.Id() := w.Rewritten()])
  {
    var t' := t[w.Id() := w.Rewritten()];
    assert w.Id() in UnblockedIds(alive);
    forall v | v in alive
      ensures v.Id() in t' && t'[v.Id()] == RowAfter(v, done + {w.Id()}, {})
    {
      if v.Id() == w.Id() {
        assert SameId(v, w);
      }
    }
    assert Stands(t', alive, done + {w.Id()}, {});
    EveryStepIsUnique(t', alive, done + {w.Id()}, {});
    forall b | b in t && b != w.Id() ensures t[b].key != w.ProposedKey() {
      assert t'[b] == t[b] && t'[w.Id()].key == w.ProposedKey();
    }
  }

  // ------------------------------------------------------------------
  // Planning the rewrites
  // ------------------------------------------------------------------

  function Get(m: map<Key, set<WorkId>>, key: Key): set<WorkId> {
    if key in m then m[key] else {}
  }

  function Add(m: map<Key, set<WorkId>>, key: Key, id: WorkId): map<Key, set<WorkId>> {
    m[key := Get(m, key) + {id}]
  }

  function Alive(works: seq<HealWork>, folded: set<WorkId>): seq<HealWork> {
    if works == [] then []
    else
      var front, last := Alive(works[..|works| - 1], folded), works[|works| - 1];
      if last.Id() in folded then front else front + [last]
  }

  function Asking(alive: seq<HealWork>): seq<HealWork> {
    if alive == [] then []
    else
      var front, last := Asking(alive[..|alive| - 1]), alive[|alive| - 1];
      if last.NeedsRewrite() then front + [last] else front
  }

  function Holders(works: seq<HealWork>, key: Key): set<WorkId> {
    set w | w in works && w.row.key == key :: w.Id()
  }

  function Askers(works: seq<HealWork>, key: Key): set<WorkId> {
    set w | w in works && w.ProposedKey() == key :: w.Id()
  }

  // `current_ids` and `proposals` of the works that no fold removed.
  method CollectProposals(works: seq<HealWork>, folded: set<WorkId>)
    returns (currentIds: map<Key, set<WorkId>>, proposals: seq<HealWork>)
    ensures proposals == Asking(Alive(works, folded))
    ensures forall key :: Get(currentIds, key) == Holders(Alive(works, folded), key)
  {
    currentIds, proposals := map[], [];
    for n := 0 to |works|
      invariant proposals == Asking(Alive(works[..n], folded))
      invariant forall key :: Get(currentIds, key) == Holders(Alive(works[..n], folded), key)
    {
      var w := works[n];
      ghost var alive := Alive(works[..n], folded);
      assert works[..n + 1][..n] == works[..n];
      if w.Id() !in folded {
        assert (alive + [w])[..|alive|] == alive;
        assert forall v :: v in alive + [w] <==> v in alive || v == w;
        forall key ensures Get(Add(currentIds, w.row.key, w.Id()), key) == Holders(alive + [w], key) {
          assert Holders(alive + [w], key) == Holders(alive, key) + (if w.row.key == key then {w.Id()} else {});
        }
        currentIds := Add(currentIds, w.row.key, w.Id());
        if w.NeedsRewrite() {
          proposals := proposals + [w];
        }
      }
    }
    assert works[..|works|] == works;
  }

  method GroupProposals(proposals: seq<HealWork>) returns (byKey: map<Key, set<WorkId>>)
    ensures forall key :: Get(byKey, key) == Askers(proposals, key)
    ensures byKey.Keys == set w | w in proposals :: w.ProposedKey()
  {
    byKey := map[];
    for n := 0 to |proposals|
      invariant forall key :: Get(byKey, key) == Askers(proposals[..n], key)
      invariant byKey.Keys == set w | w in proposals[..n] :: w.ProposedKey()
    {
      var w, sofar := proposals[n], proposals[..n];
      assert proposals[..n + 1] == sofar + [w];
      assert forall v :: v in sofar + [w] <==> v in sofar || v == w;
      forall key ensures Get(Add(byKey, w.ProposedKey(), w.Id()), key) == Askers(sofar + [w], key) {
        assert Askers(sofar + [w], key) == Askers(sofar, key) + (if w.ProposedKey() == key then {w.Id()} else {});
      }
      byKey := Add(byKey, w.ProposedKey(), w.Id());
    }
    assert proposals[..|proposals|] == proposals;
  }

  method PlanRewrites(works: seq<HealWork>, folded: set<WorkId>)
    returns (proposals: seq<HealWork>, blocked: set<Key>, cohorts: set<set<WorkId>>)
    requires DistinctWorks(works)
    ensures Proposals(Survivors(works, folded), proposals)
    ensures blocked == BlockedKeys(Survivors(works, folded))
    ensures cohorts == CohortsOf(Survivors(works, folded), blocked)
  {
    var currentIds;
    currentIds, proposals := CollectProposals(works, folded);
    var byKey := GroupProposals(proposals);
    ghost var alive := Survivors(works, folded);
    PlanFacts(works, folded, proposals, byKey.Keys);
    assert Totals(currentIds, byKey, alive);
    blocked, cohorts := BlockCohorts(currentIds, byKey, alive);
  }

  ghost predicate Totals(currentIds: map<Key, set<WorkId>>, byKey: map<Key, set<WorkId>>, alive: set<HealWork>) {
    forall key :: Get(currentIds, key) + Get(byKey, key) == Cohort(alive, key)
  }

  ghost function Crowded(alive: set<HealWork>, keys: set<Key>): set<Key> {
    set key | key in keys && |Cohort(alive, key)| > 1
  }

  function CohortsOf(alive: set<HealWork>, keys: set<Key>): set<set<WorkId>> {
    set key | key in keys :: Cohort(alive, key)
  }

  method BlockCohorts(
      currentIds: map<Key, set<WorkId>>, byKey: map<Key, set<WorkId>>, ghost alive: set<HealWork>)
    returns (blocked: set<Key>, cohorts: set<set<WorkId>>)
    requires Totals(currentIds, byKey, alive)
    ensures blocked == Crowded(alive, byKey.Keys) && cohorts == CohortsOf(alive, blocked)
  {
    blocked, cohorts := {}, {};
    var left := byKey.Keys;
    ghost var seen: set<Key> := {};
    while left != {}
      invariant left !! seen && seen + left == byKey.Keys
      invariant Blocking(alive, seen, blocked, cohorts)
      decreases left
    {
      ghost var some := AnElement(left);
      var key :| key in left;
      blocked, cohorts := BlockOne(currentIds, byKey, key, blocked, cohorts, alive, seen);
      seen, left := seen + {key}, left - {key};
    }
  }

  ghost predicate Blocking(alive: set<HealWork>, seen: set<Key>, blocked: set<Key>, cohorts: set<set<WorkId>>) {
    blocked == Crowded(alive, seen) && cohorts == CohortsOf(alive, blocked)
  }

  method BlockOne(
      currentIds: map<Key, set<WorkId>>, byKey: map<Key, set<WorkId>>, key: Key, blocked: set<Key>,
      cohorts: set<set<WorkId>>, ghost alive: set<HealWork>, ghost seen: set<Key>)
    returns (blocked': set<Key>, cohorts': set<set<WorkId>>)
    requires Totals(currentIds, byKey, alive) && Blocking(alive, seen, blocked, cohorts)
    ensures Blocking(alive, seen + {key}, blocked', cohorts')
  {
    blocked', cohorts' := blocked, cohorts;
    CrowdedStep(alive, seen, blocked, key);
    var cohort := Get(currentIds, key) + Get(byKey, key);
    if |cohort| > 1 {
      blocked' := blocked + {key};
      cohorts' := cohorts + {cohort};
    }
  }

  lemma CrowdedStep(alive: set<HealWork>, seen: set<Key>, blocked: set<Key>, key: Key)
    ensures Crowded(alive, seen + {key}) == Crowded(alive, seen) + (if |Cohort(alive, key)| > 1 then {key} else {})
    ensures CohortsOf(alive, blocked + {key}) == CohortsOf(alive, blocked) + {Cohort(alive, key)}
  {
    assert key in blocked + {key};
    forall c | c in CohortsOf(alive, blocked) ensures c in CohortsOf(alive, blocked + {key}) {
      var k :| k in blocked && Cohort(alive, k) == c;
      assert k in blocked + {key};
    }
  }

  lemma PlanFacts(works: seq<HealWork>, folded: set<WorkId>, proposals: seq<HealWork>, keys: set<Key>)
    requires DistinctWorks(works) && proposals == Asking(Alive(works, folded))
    requires keys == set w | w in proposals :: w.ProposedKey()
    ensures Proposals(Survivors(works, folded), proposals)
    ensures forall key ::
      Holders(Alive(works, folded), key) + Askers(proposals, key) == Cohort(Survivors(works, folded), key)
    ensures BlockedKeys(Survivors(works, folded)) == Crowded(Survivors(works, folded), keys)
  {
    AliveIsSurvivors(works, folded);
    AskingIsProposals(works, folded);
    CohortsSplit(works, folded, proposals);
    BlockedByKeys(Survivors(works, folded), proposals, keys);
  }

  lemma {:induction false} AliveIsSurvivors(works: seq<HealWork>, folded: set<WorkId>)
    ensures forall w :: w in Alive(works, folded) <==> w in Survivors(works, folded)
  {
    if works != [] {
      AliveIsSurvivors(works[..|works| - 1], folded);
      assert forall w :: w in works <==> w in works[..|works| - 1] || w == works[|works| - 1];
    }
  }

  lemma {:induction false} AskingCovers(alive: seq<HealWork>)
    requires DistinctWorks(alive)
    ensures forall w :: w in Asking(alive) <==> w in alive && w.NeedsRewrite()
    ensures DistinctWorks(Asking(alive))
  {
    if alive != [] {
      var front, last := alive[..|alive| - 1], alive[|alive| - 1];
      AskingCovers(front);
      assert forall w :: w in alive <==> w in front || w == last;
      forall w | w in Asking(front) ensures w.Id() != last.Id() {
        var i :| 0 <= i < |front| && front[i] == w;
        assert alive[i] == w;
      }
    }
  }

  lemma {:induction false} AliveDistinct(works: seq<HealWork>, folded: set<WorkId>)
    requires DistinctWorks(works)
    ensures DistinctWorks(Alive(works, folded))
  {
    if works != [] {
      var front, last := works[..|works| - 1], works[|works| - 1];
      AliveDistinct(front, folded);
      AliveIsSurvivors(front, folded);
      forall w | w in Alive(front, folded) ensures w.Id() != last.Id() {
        assert w in front;
        var i :| 0 <= i < |front| && front[i] == w;
        assert works[i] == w;
      }
    }
  }

  lemma AskingIsProposals(works: seq<HealWork>, folded: set<WorkId>)
    requires DistinctWorks(works)
    ensures Proposals(Survivors(works, folded), Asking(Alive(works, folded)))
  {
    AliveIsSurvivors(works, folded);
    AliveDistinct(works, folded);
    AskingCovers(Alive(works, folded));
  }

  lemma CohortsSplit(works: seq<HealWork>, folded: set<WorkId>, proposals: seq<HealWork>)
    requires Proposals(Survivors(works, folded), proposals)
    requires forall w :: w in Alive(works, folded) <==> w in Survivors(works, folded)
    ensures forall key ::
      Holders(Alive(works, folded), key) + Askers(proposals, key) == Cohort(Survivors(works, folded), key)
  {
    var alive := Survivors(works, folded);
    forall key ensures Holders(Alive(works, folded), key) + Askers(proposals, key) == Cohort(alive, key) {
      forall id | id in Cohort(alive, key) ensures id in Holders(Alive(works, folded), key) + Askers(proposals, key) {
        var w :| w in alive && (w.row.key == key || (w.NeedsRewrite() && w.ProposedKey() == key)) && w.Id() == id;
        assert w in Alive(works, folded);
      }
    }
  }

  lemma BlockedByKeys(alive: set<HealWork>, proposals: seq<HealWork>, keys: set<Key>)
    requires Proposals(alive, proposals) && keys == set w | w in proposals :: w.ProposedKey()
    ensures BlockedKeys(alive) == Crowded(alive, keys)
  {
    forall key | key in BlockedKeys(alive) ensures key in keys {
      var w :| w in alive && w.NeedsRewrite() && w.ProposedKey() == key;
      assert w in proposals;
    }
    forall key | key in keys && |Cohort(alive, key)| > 1 ensures key in BlockedKeys(alive) {
      var w :| w in proposals && w.ProposedKey() == key;
      assert w in alive && w.NeedsRewrite();
    }
  }

  // ------------------------------------------------------------------
  // Review cards
  // ------------------------------------------------------------------

  const ByWorkId: (WorkId, WorkId) -> bool := (a: WorkId, b: WorkId) => a <= b

  // The cohort's lowest id anchors the card; its generation counts a coming
  // rewrite of the anchor.
  function CardFor(works: seq<HealWork>, rewritten: set<WorkId>, cohort: set<WorkId>): Card
    requires cohort != {} && forall id :: id in cohort ==> exists w :: w in works && w.Id() == id
  {
    var anchor := Least(cohort, ByWorkId);
    Card(cohort, anchor, FindWork(works, anchor).row.generation + (if anchor in rewritten then 1 else 0))
  }

  ghost predicate KnownOne(works: seq<HealWork>, c: set<WorkId>) {
    c != {} && forall id :: id in c ==> exists w :: w in works && w.Id() == id
  }

  ghost predicate Known(works: seq<HealWork>, cohorts: set<set<WorkId>>) {
    forall c :: c in cohorts ==> KnownOne(works, c)
  }

  ghost function CardsOf(works: seq<HealWork>, rewritten: set<WorkId>, cohorts: set<set<WorkId>>): set<Card>
    requires Known(works, cohorts)
  {
    set c | c in cohorts :: CardFor(works, rewritten, c)
  }

  // The proposals handed to the minting of review cards, one per cohort.
  method MintAll(works: seq<HealWork>, rewritten: set<WorkId>, cohorts: set<set<WorkId>>) returns (cards: set<Card>)
    requires Known(works, cohorts)
    ensures cards == CardsOf(works, rewritten, cohorts)
  {
    cards := {};
    var left := cohorts;
    ghost var seen: set<set<WorkId>> := {};
    while left != {}
      invariant left !! seen && seen + left == cohorts
      invariant cards == CardsOf(works, rewritten, seen)
      decreases left
    {
      ghost var some := AnElement(left);
      var cohort :| cohort in left;
      assert cohort in cohorts;
      CardsStep(works, rewritten, seen, cohort);
      seen, left := seen + {cohort}, left - {cohort};
      cards := cards + {CardFor(works, rewritten, cohort)};
    }
    assert seen == cohorts;
  }

  lemma CardsStep(works: seq<HealWork>, rewritten: set<WorkId>, seen: set<set<WorkId>>, c: set<WorkId>)
    requires Known(works, seen) && KnownOne(works, c)
    ensures CardsOf(works, rewritten, seen + {c}) == CardsOf(works, rewritten, seen) + {CardFor(works, rewritten, c)}
  {
    assert c in seen + {c};
    forall card | card in CardsOf(works, rewritten, seen) ensures card in CardsOf(works, rewritten, seen + {c}) {
      var d :| d in seen && CardFor(works, rewritten, d) == card;
      assert d in seen + {c};
    }
  }

  // ------------------------------------------------------------------
  // The article cohorts
  // ------------------------------------------------------------------

  // `strip_leading_identity_article` of a text with single spaces: a title that
  // is only an article keeps it.
  function StripArticle(s: string): string {
    if |s| > 2 && s[..2] == "a " then s[2..]
    else if |s| > 3 && s[..3] == "an " then s[3..]
    else if |s| > 4 && s[..4] == "the " then s[4..]
    else s
  }

  predicate DiffersOnlyByArticle(a: string, b: string) {
    a != b && StripArticle(a) == StripArticle(b) && (StripArticle(a) != a || StripArticle(b) != b)
  }

  // The test of two works. `display` collapses white space and lowers case;
  // `tolerated` is what evaluate_match says of two title tuples under one author.
  predicate ArticlePair(u: HealWork, v: HealWork, display: string -> string, tolerated: (Parsed, Parsed) -> bool) {
    && u.row.key.user == v.row.key.user && u.row.key.author == v.row.key.author
    && u.row.key.distinction == "common" && v.row.key.distinction == "common"
    && u.parsed.normSubtitle == v.parsed.normSubtitle
    && DiffersOnlyByArticle(display(u.parsed.main), display(v.parsed.main))
    && tolerated(u.parsed, v.parsed)
  }

  function PairTest(works: seq<HealWork>, display: string -> string, tolerated: (Parsed, Parsed) -> bool): Match {
    (i: nat, j: nat) => i < |works| && j < |works| && ArticlePair(works[i], works[j], display, tolerated)
  }

  ghost predicate ArticleGraph(works: seq<HealWork>, matches: Match, g: Graph) {
    && |g| == |works| && ValidGraph(g)
    && forall i, j :: 0 <= i < j < |works| ==> (Edge(g, i, j) <==> matches(i, j))
  }

  ghost predicate Class(works: seq<HealWork>, g: Graph, c: seq<nat>) {
    && IndexedOne(works, c) && Distinct(c) && SameNodes(g, c)
    && (forall a :: a in c ==> a < |g| && g[a] != {})
    && forall k :: 0 <= k < |c| ==> works[c[0]].Id() <= works[c[k]].Id()
  }

  // Every connected class of works with a match, once, its lowest id first.
  ghost predicate ArticleClasses(works: seq<HealWork>, g: Graph, components: seq<seq<nat>>) {
    && (forall n :: 0 <= n < |components| ==> Class(works, g, components[n]))
    && (forall a: nat :: a < |g| && g[a] != {} ==> exists c :: c in components && a in c)
    && forall i, j :: 0 <= i < j < |components| ==> Elements(components[i]) !! Elements(components[j])
  }

  function IdAt(works: seq<HealWork>, i: nat): WorkId {
    if i < |works| then works[i].Id() else 0
  }

  // The order of `sort_by_key(row.id)`.
  function ById(works: seq<HealWork>): (nat, nat) -> bool {
    (i: nat, j: nat) => IdAt(works, i) <= IdAt(works, j)
  }

  method FindClasses(works: seq<HealWork>, matches: Match) returns (classes: seq<seq<nat>>, ghost g: Graph)
    requires DistinctWorks(works)
    ensures ArticleGraph(works, matches, g) && ArticleClasses(works, g, classes)
  {
    var adjacency := BuildAdjacency(|works|, matches);
    g := adjacency;
    var components := Components(adjacency);
    classes := [];
    for n := 0 to |components|
      invariant |classes| == n
      invariant forall i :: 0 <= i < n ==> Class(works, g, classes[i]) && SameMembers(classes[i], components[i])
    {
      assert components[n] in components;
      ClassSorted(works, g, components[n]);
      classes := classes + [Sort(components[n], ById(works))];
    }
    SortedClasses(works, g, components, classes);
  }

  ghost predicate SameMembers(a: seq<nat>, b: seq<nat>) {
    Elements(a) == Elements(b)
  }

  lemma SortedClasses(works: seq<HealWork>, g: Graph, components: seq<seq<nat>>, classes: seq<seq<nat>>)
    requires |classes| == |components|
    requires forall n :: 0 <= n < |classes| ==> Class(works, g, classes[n]) && SameMembers(classes[n], components[n])
    requires forall a: nat :: a < |g| && g[a] != {} ==> exists c :: c in components && a in c
    requires forall i, j :: 0 <= i < j < |components| ==> Elements(components[i]) !! Elements(components[j])
    ensures ArticleClasses(works, g, classes)
  {
    forall a: nat | a < |g| && g[a] != {} ensures exists c :: c in classes && a in c {
      var c :| c in components && a in c;
      var n :| 0 <= n < |components| && components[n] == c;
      assert SameMembers(classes[n], components[n]);
      assert a in Elements(classes[n]) && classes[n] in classes;
    }
    forall i, j | 0 <= i < j < |classes| ensures Elements(classes[i]) !! Elements(classes[j]) {
      assert SameMembers(classes[i], components[i]) && SameMembers(classes[j], components[j]);
    }
  }

  lemma ClassSorted(works: seq<HealWork>, g: Graph, c: seq<nat>)
    requires DistinctWorks(works) && |g| == |works|
    requires c != [] && Distinct(c) && SameNodes(g, c) && forall a :: a in c ==> a < |g| && g[a] != {}
    ensures Class(works, g, Sort(c, ById(works))) && SameMembers(Sort(c, ById(works)), c)
  {
    var s := Sort(c, ById(works));
    ByIdIsTotal(works, c);
    SortIsSorted(c, ById(works), Elements(c));
    SameElements(c, s);
    assert |multiset(s)| == |s| && |multiset(c)| == |c|;
    SameClass(works, g, c, s);
  }

  lemma ByIdIsTotal(works: seq<HealWork>, c: seq<nat>)
    requires DistinctWorks(works) && forall a :: a in c ==> a < |works|
    ensures TotalOn(ById(works), Elements(c))
  {
    var byId, d := ById(works), Elements(c);
    forall x, y | x in d && y in d && byId(x, y) && byId(y, x) ensures x == y {
      assert works[x].Id() == works[y].Id();
    }
  }

  lemma SameClass(works: seq<HealWork>, g: Graph, c: seq<nat>, s: seq<nat>)
    requires |g| == |works| && c != [] && SameNodes(g, c) && forall a :: a in c ==> a < |g| && g[a] != {}
    requires |s| == |c| && Distinct(s) && (forall x :: x in c <==> x in s) && Sorted(s, ById(works))
    ensures Class(works, g, s)
  {
    forall k | 0 <= k < |s| ensures s[k] < |works| && IdAt(works, s[0]) <= IdAt(works, s[k]) {
      assert s[k] in s;
      assert k == 0 || ById(works)(s[0], s[k]);
    }
    assert s[0] in s;
  }

  lemma SameElements(s: seq<nat>, t: seq<nat>)
    requires multiset(s) == multiset(t) && Distinct(s)
    ensures Distinct(t) && forall x :: x in s <==> x in t
  {
    forall x ensures x in s <==> x in t {
      assert (x in s <==> x in multiset(s)) && (x in t <==> x in multiset(t));
    }
    forall i, j | 0 <= i < j < |t| ensures t[i] != t[j] {
      CountsOnce(s, t[j]);
      assert t == t[..j] + [t[j]] + t[j + 1..];
      assert multiset(t) == multiset(t[..j]) + multiset{t[j]} + multiset(t[j + 1..]);
      assert t[i] in t[..j];
    }
  }

  // ------------------------------------------------------------------
  // The folds
  // ------------------------------------------------------------------

  lemma {:induction false} FoldedIsLoser(
      works: seq<HealWork>, components: seq<seq<nat>>, safe: WorkId -> bool, id: WorkId)
    returns (n: nat, k: nat)
    requires AllIndexed(works, components)
    requires id in PlanFolds(works, components, safe).folded
    ensures n < |components| && 1 <= k < |components[n]| && IdAt(works, components[n][k]) == id
    ensures IndexedOne(works, components[n]) && Foldable(works, components[n], safe)
  {
    var last := |components| - 1;
    var c := components[last];
    if Foldable(works, c, safe) && id in Ids(works, c[1..]) {
      n := last;
      var j :| 0 <= j < |c[1..]| && works[c[1..][j]].Id() == id;
      k := j + 1;
    } else {
      n, k := FoldedIsLoser(works, components[..last], safe, id);
    }
  }

  lemma {:induction false} WinnerIsFirst(
      works: seq<HealWork>, components: seq<seq<nat>>, safe: WorkId -> bool, id: WorkId)
    returns (n: nat)
    requires AllIndexed(works, components)
    requires id in PlanFolds(works, components, safe).winners
    ensures n < |components| && IndexedOne(works, components[n]) && Foldable(works, components[n], safe)
    ensures IdAt(works, components[n][0]) == id && |components[n]| > 1
  {
    var last := |components| - 1;
    if Foldable(works, components[last], safe) && id in Winner(works, components[last]) {
      n := last;
    } else {
      n := WinnerIsFirst(works, components[..last], safe, id);
    }
  }

  lemma {:induction false} CohortIsClass(
      works: seq<HealWork>, components: seq<seq<nat>>, safe: WorkId -> bool, cohort: set<WorkId>)
    returns (n: nat)
    requires AllIndexed(works, components)
    requires cohort in PlanFolds(works, components, safe).cohorts
    ensures n < |components| && IndexedOne(works, components[n])
    ensures Ids(works, components[n]) == cohort && !Foldable(works, components[n], safe)
  {
    var last := |components| - 1;
    if !Foldable(works, components[last], safe) && cohort == Ids(works, components[last]) {
      n := last;
    } else {
      n := CohortIsClass(works, components[..last], safe, cohort);
    }
  }

  // A work sits at one place of one class.
  lemma OnePlace(
      works: seq<HealWork>, g: Graph, components: seq<seq<nat>>, m: nat, j: nat, n: nat, k: nat)
    requires DistinctWorks(works) && ArticleClasses(works, g, components)
    requires m < |components| && j < |components[m]| && n < |components| && k < |components[n]|
    requires AllIndexed(works, components) && IdAt(works, components[m][j]) == IdAt(works, components[n][k])
    ensures m == n && j == k
  {
    var c, d := components[m], components[n];
    assert Class(works, g, c) && Class(works, g, d);
    assert works[c[j]].Id() == works[d[k]].Id();
    assert c[j] == d[k];
    assert c[j] in Elements(c) && d[k] in Elements(d);
  }

  lemma WinnersSurvive(
      works: seq<HealWork>, g: Graph, components: seq<seq<nat>>, safe: WorkId -> bool, plan: FoldPlan)
    requires DistinctWorks(works) && ArticleClasses(works, g, components)
    requires plan == PlanFolds(works, components, safe)
    ensures forall id :: id in plan.winners ==> exists w :: w in Survivors(works, plan.folded) && w.Id() == id
  {
    forall id | id in plan.winners ensures exists w :: w in Survivors(works, plan.folded) && w.Id() == id {
      var m := WinnerIsFirst(works, components, safe, id);
      if id in plan.folded {
        var n, k := FoldedIsLoser(works, components, safe, id);
        OnePlace(works, g, components, m, 0, n, k);
        assert false;
      }
      var w := works[components[m][0]];
      assert w in Survivors(works, plan.folded) && w.Id() == id;
    }
  }

  // What the minting needs: every cohort is a nonempty set of selected works.
  lemma CohortsAreWorks(
      works: seq<HealWork>, g: Graph, components: seq<seq<nat>>, safe: WorkId -> bool, plan: FoldPlan,
          blocked: set<Key>)
    requires DistinctWorks(works) && ArticleClasses(works, g, components)
    requires plan == PlanFolds(works, components, safe) && blocked == BlockedKeys(Survivors(works, plan.folded))
    ensures Known(works, plan.cohorts + CohortsOf(Survivors(works, plan.folded), blocked))
  {
    var alive := Survivors(works, plan.folded);
    forall cohort | cohort in plan.cohorts + CohortsOf(alive, blocked) ensures KnownOne(works, cohort) {
      if cohort in plan.cohorts {
        var n := CohortIsClass(works, components, safe, cohort);
        var c := components[n];
        assert works[c[0]].Id() in cohort;
      } else {
        var key :| key in blocked && Cohort(alive, key) == cohort;
        assert |cohort| > 1;
      }
    }
  }

  lemma FoldedStands(t: Table, works: seq<HealWork>, folded: set<WorkId>)
    requires Loaded(works, t) && UniqueKeys(t)
    ensures Stands(t - folded, Survivors(works, folded), {}, {})
    ensures Separate(Survivors(works, folded)) && KeysApart(Survivors(works, folded))
    ensures forall w :: w in Survivors(works, folded) ==> w in works
  {
    var alive := Survivors(works, folded);
    forall id | id in t - folded ensures exists w :: w in alive && w.Id() == id {
      var i :| 0 <= i < |works| && works[i].Id() == id;
      assert works[i] in alive;
    }
    forall v, w | v in alive && w in alive && SameId(v, w) ensures v == w {
      OneWorkPerId(works, v, w);
    }
  }

  lemma GoingIsUnblocked(alive: set<HealWork>, proposals: seq<HealWork>, blocked: set<Key>, rewritten: set<WorkId>)
    requires Proposals(alive, proposals) && blocked == BlockedKeys(alive)
    requires rewritten == set w | w in proposals && w.ProposedKey() !in blocked :: w.Id()
    ensures rewritten == UnblockedIds(alive)
  {
    forall id | id in UnblockedIds(alive) ensures id in rewritten {
      var w :| w in alive && Unblocked(alive, w) && w.Id() == id;
      assert w in proposals;
    }
  }

  // ------------------------------------------------------------------
  // The whole run
  // ------------------------------------------------------------------

  ghost predicate Healed(
      works: seq<HealWork>, components: seq<seq<nat>>, safe: WorkId -> bool, report: Report, t: Table)
  {
    var alive := Survivors(works, report.plan.folded);
    && AllIndexed(works, components)
    && report.plan == PlanFolds(works, components, safe)
    && report.blocked == BlockedKeys(alive) && report.rewritten == UnblockedIds(alive)
    && Stands(t, alive, report.rewritten, report.plan.winners - report.rewritten)
    && Known(works, report.plan.cohorts + CohortsOf(alive, report.blocked))
    && report.cards == CardsOf(works, report.rewritten, report.plan.cohorts + CohortsOf(alive, report.blocked))
  }

  // Each surviving work's generation rises at most once; a fold winner's, and
  // a rewritten work's, exactly once.
  lemma GenerationRisesOnce(
      works: seq<HealWork>, components: seq<seq<nat>>, safe: WorkId -> bool, report: Report, t: Table, w: HealWork)
    requires DistinctWorks(works) && Healed(works, components, safe, report, t)
    requires w in works && w.Id() in t
    ensures t[w.Id()].generation
         == w.row.generation + (if w.Id() in report.rewritten + report.plan.winners then 1 else 0)
  {
    var alive := Survivors(works, report.plan.folded);
    var v :| v in alive && v.Id() == w.Id();
    OneWorkPerId(works, v, w);
  }

  // A rewrite that some key collision stops leaves title and key as they were
  // and puts the work on a card with another one; every other work ends on the
  // title its provider data asks for.
  lemma StoppedOrHealed(
      works: seq<HealWork>, components: seq<seq<nat>>, safe: WorkId -> bool, report: Report, t: Table, w: HealWork)
    requires DistinctWorks(works) && Healed(works, components, safe, report, t)
    requires w in works && w.Id() in t && w.NeedsRewrite()
    ensures if w.ProposedKey() in report.blocked
      then t[w.Id()].(generation := 0) == w.row.(generation := 0)
           && exists card :: card in report.cards && w.Id() in card.workIds && |card.workIds| > 1
      else t[w.Id()] == w.Rewritten()
  {
    var alive := Survivors(works, report.plan.folded);
    var v :| v in alive && v.Id() == w.Id();
    OneWorkPerId(works, v, w);
    if w.ProposedKey() in report.blocked {
      if w.Id() in report.rewritten {
        var u :| u in alive && Unblocked(alive, u) && u.Id() == w.Id();
        OneWorkPerId(works, u, w);
        assert false;
      }
      BlockedHasCard(works, components, safe, report, t, w.ProposedKey());
    } else {
      assert Unblocked(alive, w);
    }
  }

  lemma BlockedHasCard(
      works: seq<HealWork>, components: seq<seq<nat>>, safe: WorkId -> bool, report: Report, t: Table, key: Key)
    requires Healed(works, components, safe, report, t) && key in report.blocked
    ensures exists card :: card in report.cards && |card.workIds| > 1
              && card.workIds == Cohort(Survivors(works, report.plan.folded), key)
  {
    var alive := Survivors(works, report.plan.folded);
    var c := Cohort(alive, key);
    assert c in CohortsOf(alive, report.blocked);
    assert CardFor(works, report.rewritten, c) in report.cards;
  }

  // What goes: the works of a foldable class other than its lowest id.
  lemma FoldsExactlyLosers(
      works: seq<HealWork>, g: Graph, components: seq<seq<nat>>, safe: WorkId -> bool, n: nat, k: nat)
    requires DistinctWorks(works) && ArticleClasses(works, g, components) && AllIndexed(works, components)
    requires n < |components| && k < |components[n]|
    ensures works[components[n][k]].Id() in PlanFolds(works, components, safe).folded
       <==> k >= 1 && Foldable(works, components[n], safe)
    ensures works[components[n][k]].Id() in PlanFolds(works, components, safe).winners
       <==> k == 0 && |components[n]| > 1 && Foldable(works, components[n], safe)
  {
    var id, plan := works[components[n][k]].Id(), PlanFolds(works, components, safe);
    if id in plan.folded {
      var m, j := FoldedIsLoser(works, components, safe, id);
      OnePlace(works, g, components, m, j, n, k);
    }
    if id in plan.winners {
      var m := WinnerIsFirst(works, components, safe, id);
      OnePlace(works, g, components, m, 0, n, k);
    }
    if Foldable(works, components[n], safe) {
      ClassFolds(works, components, safe, n, k);
    }
  }

  lemma {:induction false} ClassFolds(
      works: seq<HealWork>, components: seq<seq<nat>>, safe: WorkId -> bool, n: nat, k: nat)
    requires AllIndexed(works, components) && n < |components| && k < |components[n]|
    requires Foldable(works, components[n], safe)
    ensures k >= 1 ==> works[components[n][k]].Id() in PlanFolds(works, components, safe).folded
    ensures k == 0 && |components[n]| > 1 ==> works[components[n][k]].Id() in PlanFolds(works, components, safe).winners
  {
    var last := |components| - 1;
    if n < last {
      ClassFolds(works, components[..last], safe, n, k);
    } else if k >= 1 {
      assert components[n][1..][k - 1] == components[n][k];
    }
  }

  // Every card is anchored on a work that is still there.
  lemma AnchorSurvives(
      works: seq<HealWork>, g: Graph, components: seq<seq<nat>>, safe: WorkId -> bool, report: Report, t: Table,
      cohort: set<WorkId>)
    requires DistinctWorks(works) && ArticleClasses(works, g, components)
    requires Healed(works, components, safe, report, t)
    requires cohort in report.plan.cohorts + CohortsOf(Survivors(works, report.plan.folded), report.blocked)
    ensures KnownOne(works, cohort) && Least(cohort, ByWorkId) in t
  {
    var alive := Survivors(works, report.plan.folded);
    var id := Least(cohort, ByWorkId);
    if cohort in report.plan.cohorts {
      var n := CohortIsClass(works, components, safe, cohort);
      var k :| 0 <= k < |components[n]| && works[components[n][k]].Id() == id;
      FoldsExactlyLosers(works, g, components, safe, n, k);
      assert works[components[n][k]] in alive;
    } else {
      var key :| key in report.blocked && Cohort(alive, key) == cohort;
    }
  }

  // The lowest id of a class of two or more that folds.
  predicate FoldWinner(works: seq<HealWork>, components: seq<seq<nat>>, safe: WorkId -> bool, id: WorkId)
    requires AllIndexed(works, components)
  {
    exists n :: 0 <= n < |components| && |components[n]| > 1 && Foldable(works, components[n], safe)
                && works[components[n][0]].Id() == id
  }

  lemma WinnersAreFoldWinners(
      works: seq<HealWork>, g: Graph, components: seq<seq<nat>>, safe: WorkId -> bool, id: WorkId)
    requires DistinctWorks(works) && ArticleClasses(works, g, components) && AllIndexed(works, components)
    ensures id in PlanFolds(works, components, safe).winners <==> FoldWinner(works, components, safe, id)
  {
    if id in PlanFolds(works, components, safe).winners {
      var n := WinnerIsFirst(works, components, safe, id);
    }
    if FoldWinner(works, components, safe, id) {
      var n :| 0 <= n < |components| && |components[n]| > 1 && Foldable(works, components[n], safe)
        && works[components[n][0]].Id() == id;
      FoldsExactlyLosers(works, g, components, safe, n, 0);
    }
  }

  // A card carries its anchor's final generation unless the anchor is a fold
  // winner whose own title is not rewritten in the same run: that one bump the
  // stamp leaves out. Both sides of the condition are read off the works before
  // the run: the classes with their fold tests, and the keys held and asked for.
  lemma CardIsCurrentIff(
      works: seq<HealWork>, g: Graph, components: seq<seq<nat>>, safe: WorkId -> bool, report: Report, t: Table,
      card: Card)
    requires DistinctWorks(works) && ArticleClasses(works, g, components)
    requires Healed(works, components, safe, report, t) && card in report.cards
    ensures card.anchor in t
    ensures t[card.anchor].generation == card.generation
       <==> card.anchor in UnblockedIds(Survivors(works, PlanFolds(works, components, safe).folded))
            || !FoldWinner(works, components, safe, card.anchor)
  {
    var alive := Survivors(works, report.plan.folded);
    var cohort :| cohort in report.plan.cohorts + CohortsOf(alive, report.blocked)
                  && CardFor(works, report.rewritten, cohort) == card;
    AnchorSurvives(works, g, components, safe, report, t, cohort);
    GenerationRisesOnce(works, components, safe, report, t, FindWork(works, card.anchor));
    WinnersAreFoldWinners(works, g, components, safe, card.anchor);
  }
}
