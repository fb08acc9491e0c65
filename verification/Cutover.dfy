// Staging the legacy identifiers as routes, editions and conflicts, the group
// cards, and activation (crates/livrarr-db/src/identity_layer.rs:2926-3047,
// 6012-6095, 6098-6402). Works, cards and routes are one transaction.
module Cutover {
  import opened Basics
  import opened RouteGraph
  import opened Staging
  import Sorting

  datatype Column = Column(field: string, provider: string, kind: string, ofEdition: bool)

  const COLUMNS: seq<Column> := [
    Column("ol_key", "OpenLibrary", "OpenLibraryWork", false),
    Column("hc_key", "Hardcover", "HardcoverWork", false),
    Column("gr_key", "Goodreads", "GoodreadsBookEdition", true),
    Column("isbn_13", "IsbnRegistry", "Isbn13Edition", true),
    Column("asin", "Amazon", "AsinEdition", true)]

  // A nonempty legacy identifier of a work.
  datatype Item = Item(user: UserId, work: WorkId, column: Column, value: string, generation: int)

  datatype Conflict = Conflict(
    user: UserId, current: WorkId, provider: string, kind: string, value: string, proposed: Owner, pending: bool,
    generation: int)

  datatype Ledger = Ledger(
    routes: Routes, nextRoute: RouteId, editions: map<EditionId, WorkId>, nextEdition: EditionId,
    conflicts: seq<Conflict>)

  ghost predicate ValidLedger(t: Ledger) {
    forall i :: i in t.routes ==> i < t.nextRoute
  }

  predicate Carries(r: Route, item: Item) {
    r.user == item.user && r.provider == item.column.provider && r.kind == item.column.kind
    && r.value == item.value && r.active
  }

  // The active route that a lookup of the identifier returns: the first of
  // them, when history left several.
  function Active(routes: Routes, item: Item): (r: Option<RouteId>)
    ensures r.Some? ==> r.value in routes && Carries(routes[r.value], item)
                        && forall i :: i in routes && Carries(routes[i], item) ==> r.value <= i
    ensures r.None? ==> forall i :: i in routes ==> !Carries(routes[i], item)
  {
    var ids := set i | i in routes && Carries(routes[i], item);
    if ids == {} then
      assert forall i :: i in routes && Carries(routes[i], item) ==> i in ids;
      None
    else
      var le := (i: RouteId, j: RouteId) => i <= j;
      var first := Sorting.Least(ids, le);
      assert forall i :: i in routes && Carries(routes[i], item) ==> i in ids && le(first, i);
      Some(first)
  }

  predicate PendingConflict(conflicts: seq<Conflict>, item: Item) {
    exists k :: 0 <= k < |conflicts| && conflicts[k].user == item.user && conflicts[k].provider == item.column.provider
                && conflicts[k].kind == item.column.kind && conflicts[k].value == item.value && conflicts[k].pending
  }

  // What the lookup of `staged_edition` decodes: a route without an edition is
  // an error there.
  predicate EditionMissing(t: Ledger, item: Item) {
    var held := Active(t.routes, item);
    item.column.ofEdition && held.Some? && !t.routes[held.value].owner.OfEdition?
  }

  // `staged_edition`, then `stage_route`.
  function StageItem(t: Ledger, item: Item): Option<Ledger> {
    if EditionMissing(t, item) then None
    else match Active(t.routes, item)
      case Some(id) =>
        var owner := if item.column.ofEdition then t.routes[id].owner else OfWork(item.work);
        if t.routes[id].resolved == item.work || PendingConflict(t.conflicts, item) then Some(t)
        else Some(t.(conflicts := t.conflicts + [ConflictFor(item, t.routes[id].resolved, owner)]))
      case None =>
        var owner := if item.column.ofEdition then OfEdition(t.nextEdition) else OfWork(item.work);
        Some(t.(
          editions := if item.column.ofEdition then t.editions[t.nextEdition := item.work] else t.editions,
          nextEdition := if item.column.ofEdition then t.nextEdition + 1 else t.nextEdition,
          routes := t.routes[t.nextRoute := RouteOf(item, owner)],
          nextRoute := t.nextRoute + 1))
  }

  function ConflictFor(item: Item, current: WorkId, owner: Owner): Conflict {
    Conflict(item.user, current, item.column.provider, item.column.kind, item.value, owner, true, item.generation)
  }

  function RouteOf(item: Item, owner: Owner): Route {
    Route(item.user, owner, item.work, item.column.provider, item.column.kind, item.value, true,
          Machine("Migrated:" + item.column.field), false)
  }

  // The identifier is on record: as an active route of its own work, or as
  // another work's with a pending conflict about it.
  ghost predicate Placed(t: Ledger, item: Item) {
    var held := Active(t.routes, item);
    held.Some? && !EditionMissing(t, item)
    && (t.routes[held.value].resolved == item.work || PendingConflict(t.conflicts, item))
  }

  lemma ItemIsPlaced(t: Ledger, item: Item)
    requires ValidLedger(t) && StageItem(t, item).Some?
    ensures ValidLedger(StageItem(t, item).value) && Placed(StageItem(t, item).value, item)
  {
    var after := StageItem(t, item).value;
    match Active(t.routes, item) {
      case Some(id) =>
        if t.routes[id].resolved != item.work && !PendingConflict(t.conflicts, item) {
          assert after.conflicts[|t.conflicts|] == ConflictFor(
            item, t.routes[id].resolved, if item.column.ofEdition then t.routes[id].owner else OfWork(item.work));
        }
      case None =>
        assert Carries(after.routes[t.nextRoute], item);
        assert Active(after.routes, item) == Some(t.nextRoute);
    }
  }

  // Staging only adds: what is on record stays on record.
  lemma PlacedStays(t: Ledger, item: Item, other: Item)
    requires ValidLedger(t) && StageItem(t, item).Some? && Placed(t, other)
    ensures Placed(StageItem(t, item).value, other)
  {
    var after, held := StageItem(t, item).value, Active(t.routes, other).value;
    assert after.routes[held] == t.routes[held];
    forall i | i in after.routes && Carries(after.routes[i], other) ensures held <= i {}
    assert Active(after.routes, other) == Some(held);
    if PendingConflict(t.conflicts, other) {
      var k :| 0 <= k < |t.conflicts| && t.conflicts[k].user == other.user
        && t.conflicts[k].provider == other.column.provider && t.conflicts[k].kind == other.column.kind
        && t.conflicts[k].value == other.value && t.conflicts[k].pending;
      assert after.conflicts[k] == t.conflicts[k];
    }
  }

  // What is on record is not staged again.
  lemma PlacedIsDone(t: Ledger, item: Item)
    requires Placed(t, item)
    ensures StageItem(t, item) == Some(t)
  {}

  function StageAll(t: Ledger, items: seq<Item>): Option<Ledger> {
    if items == [] then Some(t)
    else match StageAll(t, items[..|items| - 1])
      case None => None
      case Some(front) => StageItem(front, items[|items| - 1])
  }

  // Every nonempty legacy identifier ends on record.
  lemma {:induction false} AllPlaced(t: Ledger, items: seq<Item>, k: nat)
    requires ValidLedger(t) && StageAll(t, items).Some?
    ensures ValidLedger(StageAll(t, items).value)
    ensures k < |items| ==> Placed(StageAll(t, items).value, items[k])
  {
    if items != [] {
      var last := |items| - 1;
      AllPlaced(t, items[..last], k);
      var front := StageAll(t, items[..last]).value;
      ItemIsPlaced(front, items[last]);
      if k < last {
        PlacedStays(front, items[last], items[k]);
      }
    }
  }

  lemma {:induction false} NothingLeft(t: Ledger, items: seq<Item>)
    requires forall k :: 0 <= k < |items| ==> Placed(t, items[k])
    ensures StageAll(t, items) == Some(t)
  {
    if items != [] {
      NothingLeft(t, items[..|items| - 1]);
      PlacedIsDone(t, items[|items| - 1]);
    }
  }

  // Staging the same identifiers again adds no route, edition or conflict.
  lemma StagingAgainAddsNothing(t: Ledger, items: seq<Item>)
    requires ValidLedger(t) && StageAll(t, items).Some?
    ensures StageAll(StageAll(t, items).value, items) == Some(StageAll(t, items).value)
  {
    forall k | 0 <= k < |items| ensures Placed(StageAll(t, items).value, items[k]) {
      AllPlaced(t, items, k);
    }
    NothingLeft(StageAll(t, items).value, items);
  }

  // ------------------------------------------------------------------
  // The identifiers of the works
  // ------------------------------------------------------------------

  function ItemsOf(w: WorkId, work: LegacyWork, columns: nat): seq<Item>
    requires columns <= |COLUMNS|
  {
    if columns == 0 then []
    else
      var front := ItemsOf(w, work, columns - 1);
      if columns - 1 < |work.identifiers| && work.identifiers[columns - 1].Some?
         && Trim(work.identifiers[columns - 1].value) != ""
      then front + [Item(work.user, w, COLUMNS[columns - 1], Trim(work.identifiers[columns - 1].value),
          work.generation)]
      else front
  }

  function Items(works: Works, order: seq<WorkId>): seq<Item> {
    if order == [] then []
    else
      var w := order[|order| - 1];
      Items(works, order[..|order| - 1]) + (if w in works then ItemsOf(w, works[w], |COLUMNS|) else [])
  }

  lemma {:induction false} SameItemsOf(w: WorkId, a: LegacyWork, b: LegacyWork, columns: nat)
    requires columns <= |COLUMNS|
    requires a.user == b.user && a.identifiers == b.identifiers && a.generation == b.generation
    ensures ItemsOf(w, a, columns) == ItemsOf(w, b, columns)
  {
    if columns > 0 {
      SameItemsOf(w, a, b, columns - 1);
    }
  }

  lemma {:induction false} StagedItemsSame(works: Works, order: seq<WorkId>)
    ensures Items(StagedWorks(works), order) == Items(works, order)
  {
    if order != [] {
      StagedItemsSame(works, order[..|order| - 1]);
      var w := order[|order| - 1];
      if w in works {
        SameItemsOf(w, StagedWork(works[w]), works[w], |COLUMNS|);
      }
    }
  }

  lemma {:induction false} StageAllSplits(t: Ledger, front: seq<Item>, back: seq<Item>)
    ensures StageAll(t, front + back)
         == match StageAll(t, front) case None => None case Some(mid) => StageAll(mid, back)
  {
    if back == [] {
      assert front + back == front;
    } else {
      var last := |back| - 1;
      assert (front + back)[..|front + back| - 1] == front + back[..last];
      StageAllSplits(t, front, back[..last]);
    }
  }

  // ------------------------------------------------------------------
  // Cards, report, run
  // ------------------------------------------------------------------

  // The three other kinds that the report counts are one here; a card of a kind
  // that it does not count, a proposed route for one, holds activation up all
  // the same.
  datatype CardKind = GroupCard | OtherBlocker | Uncounted

  // Payloads are compared as text, so a card is known by its work list.
  datatype Card = Card(user: UserId, work: WorkId, kind: CardKind, payload: seq<WorkId>, generation: int, pending: bool)

  predicate HasCard(cards: seq<Card>, c: Cohort) {
    c.works != [] && exists k :: 0 <= k < |cards| && cards[k].user == c.user && cards[k].work == c.works[0]
                       && cards[k].kind == GroupCard && cards[k].payload == c.works
  }

  function WithCard(cards: seq<Card>, c: Cohort): seq<Card> {
    if HasCard(cards, c) || c.works == [] then cards
    else cards + [Card(c.user, c.works[0], GroupCard, c.works, c.generation, true)]
  }

  ghost predicate AllCarded(cards: seq<Card>, cohorts: set<Cohort>) {
    forall c :: c in cohorts && c.works != [] ==> HasCard(cards, c)
  }

  lemma WithCardKeeps(cards: seq<Card>, c: Cohort, other: Cohort)
    ensures cards <= WithCard(cards, c) && (c.works != [] ==> HasCard(WithCard(cards, c), c))
    ensures HasCard(cards, other) ==> HasCard(WithCard(cards, c), other)
  {
    var after := WithCard(cards, c);
    if !HasCard(cards, c) && c.works != [] {
      assert after[|cards|] == Card(c.user, c.works[0], GroupCard, c.works, c.generation, true);
    }
    if HasCard(cards, other) {
      var k :| 0 <= k < |cards| && cards[k].user == other.user && cards[k].work == other.works[0]
        && cards[k].kind == GroupCard && cards[k].payload == other.works;
      assert after[k] == cards[k];
    }
  }

  function PendingCount(cards: seq<Card>, kind: CardKind): nat {
    if cards == [] then 0
    else PendingCount(cards[..|cards| - 1], kind)
         + (if cards[|cards| - 1].pending && cards[|cards| - 1].kind == kind then 1 else 0)
  }

  // `IdentityMigrationReport`; the three other card kinds count as one.
  datatype Report = Report(groupCards: nat, otherCards: nat) {
    predicate IndexReady() {
      groupCards == 0
    }
  }

  datatype Run = Run(indexReady: bool, blockers: nat, activated: bool)

  // `persist_cutover_report`.
  function RunFor(report: Report): Run {
    Run(report.IndexReady(), report.groupCards + report.otherCards, false)
  }

  datatype Readiness = Activated | CutoverRequired

  datatype Error = Collision | Database

  class Authority {
    var works: Works
    var ledger: Ledger
    var cards: seq<Card>
    // The latest apply run, `identity_authority_v2`, and open legacy conflicts.
    var latest: Option<Run>
    var active: bool
    var openConflicts: nat

    // `build_migration_report`, its counts.
    method BuildReport() returns (report: Report)
      ensures report == Report(|CohortsOf(works)|, PendingCount(cards, OtherBlocker))
      ensures report.IndexReady() <==> CohortsOf(works) == {}
    {
      report := Report(|CohortsOf(works)|, PendingCount(cards, OtherBlocker));
    }

    // `stage_legacy_identity_rows`: all of it or nothing.
    method StageLegacyRows(report: Report) returns (ok: bool)
      requires ValidLedger(ledger)
      modifies `works, `ledger, `cards
      ensures ValidLedger(ledger)
      ensures !ok ==> works == old(works) && ledger == old(ledger) && cards == old(cards)
      ensures ok ==> Staged(old(works), old(ledger), old(cards), works, ledger, cards)
      ensures ok ==> report.groupCards == |CohortsOf(old(works))|
                     && report == Report(PendingCount(cards, GroupCard), PendingCount(cards, OtherBlocker))
    {
      var cohorts := CohortsOf(works);
      if |cohorts| != report.groupCards {
        return false;
      }
      var saved := (works, ledger, cards);
      ok := StageTables(cohorts);
      if ok {
        ok := report == Report(PendingCount(cards, GroupCard), PendingCount(cards, OtherBlocker));
      }
      if !ok {
        works, ledger, cards := saved.0, saved.1, saved.2;
      }
    }

    // The UPDATE, the identifiers and the cards.
    method StageTables(cohorts: set<Cohort>) returns (ok: bool)
      requires ValidLedger(ledger) && cohorts == CohortsOf(works)
      modifies `works, `ledger, `cards
      ensures ok ==> ValidLedger(ledger) && Staged(old(works), old(ledger), old(cards), works, ledger, cards)
    {
      StagedOrderSame(works);
      StagedItemsSame(works, Ordered(works));
      works := StagedWorks(works);
      ok := StageIdentifiers(Ordered(works));
      if ok {
        MintGroupCards(cohorts);
      }
    }

    // `for work in works`, five columns each.
    method StageIdentifiers(order: seq<WorkId>) returns (ok: bool)
      requires ValidLedger(ledger)
      modifies `ledger
      ensures ok ==> ValidLedger(ledger)
      ensures ok <==> StageAll(old(ledger), Items(works, order)).Some?
      ensures ok ==> StageAll(old(ledger), Items(works, order)) == Some(ledger)
    {
      ghost var before := ledger;
      ok := true;
      for n := 0 to |order|
        invariant ok && ValidLedger(ledger)
        invariant StageAll(before, Items(works, order[..n])) == Some(ledger)
      {
        ItemsSnoc(works, order, n);
        if order[n] in works {
          ok := StageWork(order[n]);
          StageAllSplits(before, Items(works, order[..n]), ItemsOf(order[n], works[order[n]], |COLUMNS|));
          if !ok {
            FailsOn(before, works, order, n);
            return;
          }
        }
      }
      assert order[..|order|] == order;
    }

    method StageWork(w: WorkId) returns (ok: bool)
      requires ValidLedger(ledger) && w in works
      modifies `ledger
      ensures ok ==> ValidLedger(ledger)
      ensures ok <==> StageAll(old(ledger), ItemsOf(w, works[w], |COLUMNS|)).Some?
      ensures ok ==> StageAll(old(ledger), ItemsOf(w, works[w], |COLUMNS|)) == Some(ledger)
    {
      var items := ItemsOf(w, works[w], |COLUMNS|);
      ghost var before := ledger;
      ok := true;
      for n := 0 to |items|
        invariant ok && ValidLedger(ledger) && StageAll(before, items[..n]) == Some(ledger)
      {
        assert items[..n + 1][..n] == items[..n];
        var next := StageItem(ledger, items[n]);
        if next.None? {
          assert items == items[..n + 1] + items[n + 1..];
          StageAllSplits(before, items[..n + 1], items[n + 1..]);
          return false;
        }
        ItemIsPlaced(ledger, items[n]);
        ledger := next.value;
      }
      assert items[..|items|] == items;
    }

    // `for cohort in group_review_cohorts`: INSERT ... WHERE NOT EXISTS.
    method MintGroupCards(cohorts: set<Cohort>)
      modifies `cards
      ensures old(cards) <= cards && AllCarded(cards, cohorts)
      ensures AllCarded(old(cards), cohorts) ==> cards == old(cards)
    {
      var left := cohorts;
      while left != {}
        invariant left <= cohorts && old(cards) <= cards && AllCarded(cards, cohorts - left)
        invariant AllCarded(old(cards), cohorts) ==> cards == old(cards)
        decreases left
      {
        ghost var some := AnElement(left);
        var c :| c in left;
        forall o | o in cohorts - left && o.works != [] ensures HasCard(WithCard(cards, c), o) {
          WithCardKeeps(cards, c, o);
        }
        WithCardKeeps(cards, c, c);
        cards := WithCard(cards, c);
        left := left - {c};
      }
    }

    // `run_identity_cutover` in apply mode, from scratch.
    method Apply() returns (r: Result<Report, Error>)
      requires ValidLedger(ledger)
      modifies `works, `ledger, `cards, `latest
      ensures ValidLedger(ledger)
      ensures r.Err? ==> works == old(works) && ledger == old(ledger) && cards == old(cards) && latest == old(latest)
      ensures r.Ok? ==> Staged(old(works), old(ledger), old(cards), works, ledger, cards)
      ensures r.Ok? ==> (r.value.IndexReady() <==> CohortsOf(old(works)) == {})
      ensures r.Ok? ==> latest == Some(RunFor(r.value))
    {
      if active {
        return Err(Database);
      }
      var report := BuildReport();
      var ok := StageLegacyRows(report);
      if !ok {
        return Err(Database);
      }
      latest := Some(RunFor(report));
      r := Ok(report);
    }

    // `ensure_identity_authority_ready`.
    method EnsureReady() returns (r: Result<Readiness, Error>)
      modifies `latest, `active
      ensures r == if old(active) then Ok(Activated)
                   else if !Permits(old(latest), works, cards, openConflicts) then Ok(CutoverRequired)
                   else if IndexBuilds(works) then Ok(Activated) else Err(Collision)
      ensures active <==> r == Ok(Activated)
    {
      if active {
        return Ok(Activated);
      }
      if !Permits(latest, works, cards, openConflicts) {
        return Ok(CutoverRequired);
      }
      var builds := BuildIndex();
      if !builds {
        return Err(Collision);
      }
      active := true;
      latest := if latest.Some? && IsReady(latest.value) then Some(latest.value.(activated := true)) else latest;
      r := Ok(Activated);
    }

    method BuildIndex() returns (ok: bool)
      ensures ok <==> IndexBuilds(works)
    {
      ok := forall a, b :: a in works.Keys && b in works.Keys && a != b && works[a].primary.Some? ==>
        StoredKey(works[a]) != StoredKey(works[b]);
    }
  }

  // What a staging that committed leaves.
  ghost predicate Staged(
      works: Works, ledger: Ledger, cards: seq<Card>, works': Works, ledger': Ledger, cards': seq<Card>)
  {
    && works' == StagedWorks(works)
    && StageAll(ledger, Items(works, Ordered(works))) == Some(ledger')
    && cards <= cards' && AllCarded(cards', CohortsOf(works))
    && (AllCarded(cards, CohortsOf(works)) ==> cards' == cards)
  }

  lemma StagedOrderSame(works: Works)
    ensures Ordered(StagedWorks(works)) == Ordered(works)
  {
    SameOrder(works, StagedWorks(works));
  }

  predicate IsReady(run: Run) {
    run.indexReady && run.blockers == 0 && !run.activated
  }

  function AllPending(cards: seq<Card>): nat {
    PendingCount(cards, GroupCard) + PendingCount(cards, OtherBlocker) + PendingCount(cards, Uncounted)
  }

  predicate Permits(latest: Option<Run>, works: Works, cards: seq<Card>, openConflicts: nat) {
    openConflicts + AllPending(cards) == 0 && (works == map[] || (latest.Some? && IsReady(latest.value)))
  }

  // A report can be ready while activation is not: a pending card that it does
  // not count is enough.
  lemma UncountedCardHoldsUp(works: Works, cards: seq<Card>)
    requires PendingCount(cards, GroupCard) == PendingCount(cards, OtherBlocker) == 0 < PendingCount(cards, Uncounted)
    ensures var run := RunFor(Report(PendingCount(cards, GroupCard), PendingCount(cards, OtherBlocker)));
            IsReady(run) && !Permits(Some(run), works, cards, 0)
  {}

  lemma UncountedCardExists(card: Card)
    requires card.pending && card.kind == Uncounted
    ensures PendingCount([card], GroupCard) == PendingCount([card], OtherBlocker) == 0 < PendingCount([card], Uncounted)
  {
    CountOfOne(card, GroupCard);
    CountOfOne(card, OtherBlocker);
    CountOfOne(card, Uncounted);
  }

  lemma CountOfOne(card: Card, kind: CardKind)
    ensures PendingCount([card], kind) == if card.pending && card.kind == kind then 1 else 0
  {
    assert [card][..0] == [];
  }

  lemma ItemsSnoc(works: Works, order: seq<WorkId>, n: nat)
    requires n < |order|
    ensures Items(works, order[..n + 1])
         == if order[n] in works then Items(works, order[..n]) + ItemsOf(order[n], works[order[n]], |COLUMNS|)
            else Items(works, order[..n])
  {
    assert order[..n + 1][..n] == order[..n] && order[..n + 1][n] == order[n];
  }

  lemma FailsOn(t: Ledger, works: Works, order: seq<WorkId>, n: nat)
    requires n < |order| && StageAll(t, Items(works, order[..n + 1])).None?
    ensures StageAll(t, Items(works, order)).None?
    decreases |order| - n
  {
    if n + 1 < |order| {
      var w := order[n + 1];
      assert order[..n + 2][..n + 1] == order[..n + 1];
      StageAllSplits(t, Items(works, order[..n + 1]), if w in works then ItemsOf(w, works[w], |COLUMNS|) else []);
      FailsOn(t, works, order, n + 1);
    } else {
      assert order[..n + 1] == order;
    }
  }

  // With no write to the works in between, an apply whose report was ready is
  // followed by an activation that cannot collide.
  method ApplyThenActivate(a: Authority) returns (report: Result<Report, Error>, r: Result<Readiness, Error>)
    requires ValidLedger(a.ledger) && (forall w :: w in a.works ==> NumberText(a.works[w])) && !a.active
    modifies a
    ensures report.Ok? && report.value.IndexReady() ==> r != Err(Collision)
    ensures report.Ok? && a.active ==> IndexBuilds(a.works)
  {
    StagedIndexBuildsIff(a.works);
    report := a.Apply();
    r := a.EnsureReady();
  }

  // Every nonempty identifier is on record after a staging.
  lemma StagedIsPlaced(
      works: Works, ledger: Ledger, cards: seq<Card>, works': Works, ledger': Ledger, cards': seq<Card>, k: nat)
    requires ValidLedger(ledger) && Staged(works, ledger, cards, works', ledger', cards')
    requires k < |Items(works, Ordered(works))|
    ensures Placed(ledger', Items(works, Ordered(works))[k])
  {
    AllPlaced(ledger, Items(works, Ordered(works)), k);
  }

  // A second staging without writes in between changes no work, route,
  // edition, conflict or card.
  lemma SecondStagingChangesNothing(
      works: Works, ledger: Ledger, cards: seq<Card>, works': Works, ledger': Ledger, cards': seq<Card>,
      works'': Works, ledger'': Ledger, cards'': seq<Card>)
    requires ValidLedger(ledger) && forall w :: w in works ==> NumberText(works[w])
    requires Staged(works, ledger, cards, works', ledger', cards')
    requires Staged(works', ledger', cards', works'', ledger'', cards'')
    ensures works'' == works' && ledger'' == ledger' && cards'' == cards'
  {
    SecondUpdate(works);
    SecondLedger(works, ledger, ledger', ledger'');
    StagedCohortsSame(works);
  }

  lemma SecondUpdate(works: Works)
    requires forall w :: w in works ==> NumberText(works[w])
    ensures StagedWorks(StagedWorks(works)) == StagedWorks(works)
  {
    forall w | w in works ensures StagedWork(StagedWork(works[w])) == StagedWork(works[w]) {
      StagingIsIdempotent(works[w]);
    }
  }

  lemma SecondLedger(works: Works, ledger: Ledger, ledger': Ledger, ledger'': Ledger)
    requires ValidLedger(ledger) && StageAll(ledger, Items(works, Ordered(works))) == Some(ledger')
    requires StageAll(ledger', Items(StagedWorks(works), Ordered(StagedWorks(works)))) == Some(ledger'')
    ensures ledger'' == ledger'
  {
    StagedOrderSame(works);
    StagedItemsSame(works, Ordered(works));
    StagingAgainAddsNothing(ledger, Items(works, Ordered(works)));
  }
}
