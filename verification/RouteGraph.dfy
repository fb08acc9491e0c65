// Identity routes of a work: the ordered read of the active graph and the
// retry invalidation that compares two of them, and how a route is inserted
// (crates/livrarr-db/src/identity_layer.rs:36-75, 3336-3505).
module RouteGraph {
  import opened Basics
  import opened Sorting

  type UserId = int
  type WorkId = int
  type EditionId = int
  type RouteId = int

  datatype Owner = OfWork(work: WorkId) | OfEdition(edition: EditionId)

  // User and file evidence is never downgraded by a later observation.
  datatype Provenance = UserChoice | OwnedFile(file: int) | Machine(source: string) {
    predicate Sticky() {
      !Machine?
    }
  }

  datatype Route = Route(
    user: UserId, owner: Owner, resolved: WorkId, provider: string, kind: string, value: string, active: bool,
    provenance: Provenance, confirmed: bool)

  type Routes = map<RouteId, Route>

  // One row of `ActiveRouteGraph`.
  datatype GraphRow = GraphRow(
    ownerType: string, work: Option<int>, edition: Option<int>, provider: string, kind: string, value: string)

  function RowOf(r: Route): GraphRow {
    match r.owner
    case OfWork(w) => GraphRow("work", Some(w), None, r.provider, r.kind, r.value)
    case OfEdition(e) => GraphRow("edition", None, Some(e), r.provider, r.kind, r.value)
  }

  // ------------------------------------------------------------------
  // ORDER BY provider, kind, provider_scoped_id, owner_type, work_id, edition_id
  // ------------------------------------------------------------------

  function TextCompare(s: string, t: string): int {
    if s == t then 0 else if TextLe(s, t) then -1 else 1
  }

  // NULLs first.
  function NullableCompare(a: Option<int>, b: Option<int>): int {
    if a == b then 0
    else if a.None? then -1
    else if b.None? then 1
    else if a.value < b.value then -1 else 1
  }

  function ColumnCompare(i: nat, a: GraphRow, b: GraphRow): int {
    match i
    case 0 => TextCompare(a.provider, b.provider)
    case 1 => TextCompare(a.kind, b.kind)
    case 2 => TextCompare(a.value, b.value)
    case 3 => TextCompare(a.ownerType, b.ownerType)
    case 4 => NullableCompare(a.work, b.work)
    case _ => NullableCompare(a.edition, b.edition)
  }

  predicate LeFrom(i: nat, a: GraphRow, b: GraphRow)
    decreases 6 - i
  {
    i >= 6 || ColumnCompare(i, a, b) < 0 || (ColumnCompare(i, a, b) == 0 && LeFrom(i + 1, a, b))
  }

  predicate GraphLe(a: GraphRow, b: GraphRow) {
    LeFrom(0, a, b)
  }

  lemma ColumnTotal(i: nat, a: GraphRow, b: GraphRow)
    ensures ColumnCompare(i, a, b) == -ColumnCompare(i, b, a)
  {
    TextLeTotal(a.provider, b.provider);
    TextLeTotal(a.kind, b.kind);
    TextLeTotal(a.value, b.value);
    TextLeTotal(a.ownerType, b.ownerType);
  }

  lemma TextTransitive(s: string, t: string, u: string)
    requires TextCompare(s, t) <= 0 && TextCompare(t, u) <= 0
    ensures TextCompare(s, u) <= 0
    ensures TextCompare(s, u) == 0 ==> TextCompare(s, t) == 0 && TextCompare(t, u) == 0
  {
    TextLeTotal(s, t);
    TextLeTotal(t, u);
    if s != t && t != u {
      TextLeTransitive(s, t, u);
    }
  }

  lemma ColumnTransitive(i: nat, a: GraphRow, b: GraphRow, c: GraphRow)
    requires ColumnCompare(i, a, b) <= 0 && ColumnCompare(i, b, c) <= 0
    ensures ColumnCompare(i, a, c) <= 0
    ensures ColumnCompare(i, a, c) == 0 ==> ColumnCompare(i, a, b) == 0 && ColumnCompare(i, b, c) == 0
  {
    match i {
      case 0 => TextTransitive(a.provider, b.provider, c.provider);
      case 1 => TextTransitive(a.kind, b.kind, c.kind);
      case 2 => TextTransitive(a.value, b.value, c.value);
      case 3 => TextTransitive(a.ownerType, b.ownerType, c.ownerType);
      case _ =>
    }
  }

  lemma {:induction false} LeTotal(i: nat, a: GraphRow, b: GraphRow)
    requires i <= 6
    ensures LeFrom(i, a, b) || LeFrom(i, b, a)
    ensures LeFrom(i, a, b) && LeFrom(i, b, a) ==> forall k: nat :: i <= k < 6 ==> ColumnCompare(k, a, b) == 0
    decreases 6 - i
  {
    if i < 6 {
      ColumnTotal(i, a, b);
      LeTotal(i + 1, a, b);
    }
  }

  lemma {:induction false} LeTransitive(i: nat, a: GraphRow, b: GraphRow, c: GraphRow)
    requires i <= 6 && LeFrom(i, a, b) && LeFrom(i, b, c)
    ensures LeFrom(i, a, c)
    decreases 6 - i
  {
    if i < 6 {
      ColumnTransitive(i, a, b, c);
      if ColumnCompare(i, a, c) == 0 {
        LeTransitive(i + 1, a, b, c);
      }
    }
  }

  // The six columns order the rows completely.
  lemma GraphOrderIsTotal(d: set<GraphRow>)
    ensures TotalOn(GraphLe, d)
  {
    forall a, b | a in d && b in d
      ensures GraphLe(a, b) || GraphLe(b, a)
      ensures GraphLe(a, b) && GraphLe(b, a) ==> a == b
    {
      LeTotal(0, a, b);
      if GraphLe(a, b) && GraphLe(b, a) {
        assert ColumnCompare(0, a, b) == 0 && ColumnCompare(1, a, b) == 0 && ColumnCompare(2, a, b) == 0;
        assert ColumnCompare(3, a, b) == 0 && ColumnCompare(4, a, b) == 0 && ColumnCompare(5, a, b) == 0;
      }
    }
    forall a, b, c | a in d && b in d && c in d && GraphLe(a, b) && GraphLe(b, c) ensures GraphLe(a, c) {
      LeTransitive(0, a, b, c);
    }
  }

  // ------------------------------------------------------------------
  // The active graph
  // ------------------------------------------------------------------

  function ActiveIds(routes: Routes, user: UserId, work: WorkId): seq<RouteId> {
    var ids := set i | i in routes && routes[i].user == user && routes[i].resolved == work && routes[i].active;
    InOrder(ids, (i: RouteId, j: RouteId) => i <= j)
  }

  function RowsOf(routes: Routes, ids: seq<RouteId>): seq<GraphRow> {
    if ids == [] then []
    else
      var last := ids[|ids| - 1];
      RowsOf(routes, ids[..|ids| - 1]) + (if last in routes then [RowOf(routes[last])] else [])
  }

  // `read_active_route_graph`.
  function ReadGraph(routes: Routes, user: UserId, work: WorkId): seq<GraphRow> {
    Sort(RowsOf(routes, ActiveIds(routes, user, work)), GraphLe)
  }

  // What the comparison is about: the active rows, with repetitions, in no
  // order.
  ghost function ActiveBag(routes: Routes, user: UserId, work: WorkId): multiset<GraphRow> {
    multiset(RowsOf(routes, ActiveIds(routes, user, work)))
  }

  ghost predicate Changed(before: Routes, after: Routes, user: UserId, work: WorkId) {
    ActiveBag(before, user, work) != ActiveBag(after, user, work)
  }

  // Comparing two ordered reads decides whether the multiset changed.
  lemma GraphDecidesBag(before: Routes, after: Routes, user: UserId, work: WorkId)
    ensures ReadGraph(before, user, work) == ReadGraph(after, user, work) <==> !Changed(before, after, user, work)
  {
    var s, t := RowsOf(before, ActiveIds(before, user, work)), RowsOf(after, ActiveIds(after, user, work));
    var d := set x | x in s + t;
    assert forall i :: 0 <= i < |s| ==> s[i] in s + t;
    assert forall i :: 0 <= i < |t| ==> t[i] in s + t;
    GraphOrderIsTotal(d);
    SortDecidesBag(s, t, GraphLe, d);
  }

  type Retries = set<(WorkId, string)>

  function WithoutRetries(retries: Retries, work: WorkId): Retries {
    set r | r in retries && r.0 != work
  }

  ghost function Invalidated(retries: Retries, before: Routes, after: Routes, user: UserId, work: WorkId): Retries {
    if Changed(before, after, user, work) then WithoutRetries(retries, work) else retries
  }

  // `invalidate_retry_state_if_route_graph_changed`: the retry rows of the work
  // go exactly when its multiset of active routes changed. `before` is an
  // earlier ordered read.
  method InvalidateRetryState(
      routes: Routes, retries: Retries, user: UserId, work: WorkId, before: seq<GraphRow>, ghost earlier: Routes)
    returns (retries': Retries, changed: bool)
    requires before == ReadGraph(earlier, user, work)
    ensures changed <==> Changed(earlier, routes, user, work)
    ensures retries' == Invalidated(retries, earlier, routes, user, work)
  {
    GraphDecidesBag(earlier, routes, user, work);
    changed := ReadGraph(routes, user, work) != before;
    retries' := if changed then WithoutRetries(retries, work) else retries;
  }

  // ------------------------------------------------------------------
  // Inserting a route
  // ------------------------------------------------------------------

  predicate SameIdentifier(a: Route, b: Route) {
    a.user == b.user && a.provider == b.provider && a.kind == b.kind && a.value == b.value
  }

  // The row of this work for the identifier, whatever its state. The schema
  // has no unique index on it; the lowest id stands for LIMIT 1.
  function ExistingIds(routes: Routes, r: Route): seq<RouteId> {
    InOrder(RowsLike(routes, r), (i: RouteId, j: RouteId) => i <= j)
  }

  datatype Table = Table(routes: Routes, nextRoute: RouteId)

  ghost predicate ValidTable(t: Table) {
    forall i :: i in t.routes ==> i < t.nextRoute
  }

  // `insert_route` of a route whose owner has been checked: `r` carries the
  // work it resolves to.
  function Inserted(t: Table, r: Route): Table {
    var ids := ExistingIds(t.routes, r);
    if ids == [] then Table(t.routes[t.nextRoute := r], t.nextRoute + 1)
    else
      var was := t.routes[ids[0]];
      t.(routes := t.routes[ids[0] := r.(
        provenance := if was.provenance.Sticky() then was.provenance else r.provenance,
        confirmed := r.confirmed || was.confirmed)])
  }

  // The row that an insert writes.
  function WrittenRow(t: Table, r: Route): RouteId {
    var ids := ExistingIds(t.routes, r);
    if ids == [] then t.nextRoute else ids[0]
  }

  predicate SameRow(a: Route, b: Route) {
    a.resolved == b.resolved && SameIdentifier(a, b)
  }

  lemma OneRowWritten(t: Table, r: Route)
    requires ValidTable(t)
    ensures var after := Inserted(t, r).routes;
            && WrittenRow(t, r) in after && after[WrittenRow(t, r)].active == r.active
            && SameRow(after[WrittenRow(t, r)], r)
            && forall i :: i in after && i != WrittenRow(t, r) ==> i in t.routes && after[i] == t.routes[i]
  {
    ExistingFacts(t.routes, r);
  }

  function RowsLike(routes: Routes, r: Route): set<RouteId> {
    set i | i in routes && routes[i].resolved == r.resolved && SameIdentifier(routes[i], r)
  }

  lemma RowsLikeAfter(t: Table, r: Route, other: Route)
    requires ValidTable(t)
    ensures RowsLike(Inserted(t, r).routes, other)
         == if SameRow(other, r) && ExistingIds(t.routes, r) == [] then {t.nextRoute} else RowsLike(t.routes, other)
  {
    ExistingFacts(t.routes, r);
    OneRowWritten(t, r);
  }

  // The row it wrote is from then on the first of its work and identifier; for
  // every other pair nothing changes.
  lemma ExistingAfter(t: Table, r: Route, other: Route)
    requires ValidTable(t)
    ensures var after := Inserted(t, r).routes;
            if SameRow(other, r)
            then ExistingIds(after, other) != [] && ExistingIds(after, other)[0] == WrittenRow(t, r)
            else ExistingIds(after, other) == ExistingIds(t.routes, other)
  {
    RowsLikeAfter(t, r, other);
    if SameRow(other, r) {
      SameExisting(t.routes, r, other);
      assert ExistingIds(Inserted(t, r).routes, other) != [] ==>
        ExistingIds(Inserted(t, r).routes, other)[0] in ExistingIds(Inserted(t, r).routes, other);
    }
  }

  lemma SameExisting(routes: Routes, r: Route, other: Route)
    requires SameRow(other, r)
    ensures ExistingIds(routes, other) == ExistingIds(routes, r)
  {
    forall i ensures i in RowsLike(routes, other) <==> i in RowsLike(routes, r) {}
    assert RowsLike(routes, other) == RowsLike(routes, r);
  }

  // Who holds a route now; the lowest id stands for the unordered LIMIT 1.
  function HolderOf(routes: Routes, user: UserId, provider: string, kind: string, value: string): Option<WorkId> {
    var held := set i | i in routes && routes[i].user == user && routes[i].active && routes[i].provider == provider
      && routes[i].kind == kind && routes[i].value == value;
    var ids := InOrder(held, (i: RouteId, j: RouteId) => i <= j);
    if ids == [] then None else assert ids[0] in ids; Some(routes[ids[0]].resolved)
  }

  lemma ExistingFacts(routes: Routes, r: Route)
    ensures ExistingIds(routes, r) != [] ==>
              ExistingIds(routes, r)[0] in routes
              && routes[ExistingIds(routes, r)[0]].resolved == r.resolved
              && SameIdentifier(routes[ExistingIds(routes, r)[0]], r)
    ensures ExistingIds(routes, r) == [] ==>
              forall i :: i in routes ==> !(routes[i].resolved == r.resolved && SameIdentifier(routes[i], r))
  {
    var ids := ExistingIds(routes, r);
    if ids != [] {
      assert ids[0] in ids;
    } else {
      forall i | i in routes ensures !(routes[i].resolved == r.resolved && SameIdentifier(routes[i], r)) {
        assert i !in ids;
      }
    }
  }

  // A work has one row per identifier.
  ghost predicate OneRowPerWork(routes: Routes) {
    forall i, j :: i in routes && j in routes && i != j ==>
      !(routes[i].resolved == routes[j].resolved && SameIdentifier(routes[i], routes[j]))
  }

  // An identifier has at most one active owner among the works of a user.
  ghost predicate OneActiveOwner(routes: Routes) {
    forall i, j :: i in routes && j in routes && BothActive(routes[i], routes[j]) ==>
      routes[i].resolved == routes[j].resolved
  }

  predicate BothActive(a: Route, b: Route) {
    a.active && b.active && SameIdentifier(a, b)
  }

  predicate HeldElsewhere(routes: Routes, r: Route) {
    exists i :: i in routes && BothActive(routes[i], r) && routes[i].resolved != r.resolved
  }

  // Inserting never duplicates a work's row, keeps user and file provenance,
  // and never unconfirms.
  lemma InsertKeepsRows(t: Table, r: Route, i: RouteId)
    requires ValidTable(t)
    ensures ValidTable(Inserted(t, r)) && (OneRowPerWork(t.routes) ==> OneRowPerWork(Inserted(t, r).routes))
    ensures i in t.routes ==>
              var after := Inserted(t, r).routes;
              && i in after && after[i].resolved == t.routes[i].resolved && SameIdentifier(after[i], t.routes[i])
              && (t.routes[i].provenance.Sticky() ==> after[i].provenance == t.routes[i].provenance)
              && (t.routes[i].confirmed ==> after[i].confirmed)
    ensures exists k :: k in Inserted(t, r).routes && Inserted(t, r).routes[k].resolved == r.resolved
              && SameIdentifier(Inserted(t, r).routes[k], r) && Inserted(t, r).routes[k].active == r.active
  {
    ExistingFacts(t.routes, r);
    var ids := ExistingIds(t.routes, r);
    var k := if ids == [] then t.nextRoute else ids[0];
    assert SameIdentifier(Inserted(t, r).routes[k], r);
  }

  // The index over active owners is not a unique one, so an active route that
  // another work holds is inserted all the same: one active owner is kept
  // exactly when no other work holds it.
  lemma OneOwnerKeptIff(t: Table, r: Route)
    requires ValidTable(t) && OneActiveOwner(t.routes)
    ensures OneActiveOwner(Inserted(t, r).routes) <==> !HeldElsewhere(t.routes, r)
  {
    ExistingFacts(t.routes, r);
    var after, ids := Inserted(t, r).routes, ExistingIds(t.routes, r);
    var k := if ids == [] then t.nextRoute else ids[0];
    if HeldElsewhere(t.routes, r) {
      var i :| i in t.routes && BothActive(t.routes[i], r) && t.routes[i].resolved != r.resolved;
      assert BothActive(after[i], after[k]);
    } else {
      forall i, j | i in after && j in after && BothActive(after[i], after[j])
        ensures after[i].resolved == after[j].resolved
      {
        if i == k && j != k {
          assert BothActive(t.routes[j], r);
        } else if j == k && i != k {
          assert BothActive(t.routes[i], r);
        }
      }
    }
  }

  // One insert is enough: work 1 holds the route, and work 2 gets it as well.
  lemma TwoActiveOwners()
    ensures var held := Route(1, OfWork(1), 1, "openlibrary", "work", "OL1W", true, UserChoice, true);
            var t := Table(map[1 := held], 2);
            var r := held.(owner := OfWork(2), resolved := 2);
            && ValidTable(t) && OneActiveOwner(t.routes) && HeldElsewhere(t.routes, r)
            && !OneActiveOwner(Inserted(t, r).routes)
  {
    var held := Route(1, OfWork(1), 1, "openlibrary", "work", "OL1W", true, UserChoice, true);
    var routes, r := map[1 := held], held.(owner := OfWork(2), resolved := 2);
    assert BothActive(routes[1], r);
    OneOwnerKeptIff(Table(routes, 2), r);
  }
}
