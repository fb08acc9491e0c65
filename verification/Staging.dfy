// The cutover from legacy identifier columns
// (crates/livrarr-db/src/identity_layer.rs:2926-3047, 5867-5923, 6098-6402):
// group cohorts, the key-rewriting staging, and the activation that builds the
// unique index over the rewritten keys.
module Staging {
  import opened Basics
  import opened RouteGraph
  import opened Sorting
  import SqlText

  type AuthorId = int

  // `position` is `CAST(series_position AS TEXT)`; `identifiers` holds ol_key,
  // hc_key, gr_key, isbn_13 and asin.
  datatype LegacyWork = LegacyWork(
    user: UserId, generation: int, normalizedTitle: string, main: string, subtitle: Option<string>,
    normalizedSubtitle: string, normalizedVolume: string, identityVolume: Option<string>, position: Option<string>,
    author: Option<AuthorId>, primary: Option<AuthorId>, distinction: string, identifiers: seq<Option<string>>)

  type Works = map<WorkId, LegacyWork>

  const UNMIGRATED := "__UNMIGRATED__"

  // COALESCE(NULLIF(trim(s), ''), other).
  function TrimmedOr(s: string, other: string): string {
    if SqlText.Trim(s) != "" then SqlText.Trim(s) else other
  }

  function EffectiveMain(w: LegacyWork): string {
    if SqlText.Trim(w.main) == "" || w.main == UNMIGRATED then w.normalizedTitle else w.main
  }

  function EffectiveSubtitle(w: LegacyWork): string {
    TrimmedOr(w.normalizedSubtitle, SqlText.Lower(SqlText.Trim(if w.subtitle.Some? then w.subtitle.value else "")))
  }

  function EffectiveVolume(w: LegacyWork): string {
    var position := if w.position.Some? then w.position.value else "";
    TrimmedOr(w.normalizedVolume, if w.identityVolume.Some? then TrimmedOr(w.identityVolume.value, position)
        else position)
  }

  function EffectivePrimary(w: LegacyWork): Option<AuthorId> {
    if w.primary.Some? then w.primary else w.author
  }

  // The columns of idx_works_identity_v2.
  datatype Key = Key(
    user: UserId, main: string, subtitle: string, volume: string, primary: Option<AuthorId>, distinction: string)

  function EffectiveKey(w: LegacyWork): Key {
    Key(w.user, EffectiveMain(w), EffectiveSubtitle(w), EffectiveVolume(w), EffectivePrimary(w),
        TrimmedOr(w.distinction, "common"))
  }

  function StoredKey(w: LegacyWork): Key {
    Key(w.user, w.main, w.normalizedSubtitle, w.normalizedVolume, w.primary, w.distinction)
  }

  // The UPDATE of the staging.
  function StagedWork(w: LegacyWork): LegacyWork {
    w.(main := EffectiveMain(w), normalizedSubtitle := EffectiveSubtitle(w), normalizedVolume := EffectiveVolume(w),
       primary := EffectivePrimary(w), distinction := TrimmedOr(w.distinction, "common"))
  }

  // A number's text has no spaces around it.
  predicate NumberText(w: LegacyWork) {
    w.position.Some? ==> SqlText.Bare(w.position.value)
  }

  lemma TrimmedOrStays(s: string, other: string)
    requires SqlText.Bare(other)
    ensures TrimmedOr(TrimmedOr(s, other), other) == TrimmedOr(s, other) && SqlText.Bare(TrimmedOr(s, other))
  {
    SqlText.TrimIsBare(s);
    SqlText.TrimOfBare(TrimmedOr(s, other));
  }

  // Staging stores the effective key, and what is stored is effective: a
  // second staging finds the same keys.
  lemma StagingIsIdempotent(w: LegacyWork)
    requires NumberText(w)
    ensures StoredKey(StagedWork(w)) == EffectiveKey(w)
    ensures EffectiveKey(StagedWork(w)) == EffectiveKey(w)
    ensures StagedWork(StagedWork(w)) == StagedWork(w)
  {
    var subtitle := SqlText.Trim(if w.subtitle.Some? then w.subtitle.value else "");
    SqlText.TrimIsBare(if w.subtitle.Some? then w.subtitle.value else "");
    SqlText.LowerOfBare(subtitle);
    TrimmedOrStays(w.normalizedSubtitle, SqlText.Lower(subtitle));
    var position := if w.position.Some? then w.position.value else "";
    if w.identityVolume.Some? { TrimmedOrStays(w.identityVolume.value, position); }
    TrimmedOrStays(
      w.normalizedVolume, if w.identityVolume.Some? then TrimmedOr(w.identityVolume.value, position) else position);
    TrimmedOrStays(w.distinction, "common");
  }

  // ------------------------------------------------------------------
  // Group cohorts
  // ------------------------------------------------------------------

  datatype Cohort = Cohort(user: UserId, works: seq<WorkId>, generation: int)

  predicate Precedes(works: Works, a: WorkId, b: WorkId) {
    a in works && b in works && (works[a].user < works[b].user || (works[a].user == works[b].user && a <= b))
  }

  function ByOwner(works: Works): (WorkId, WorkId) -> bool {
    (a, b) => Precedes(works, a, b)
  }

  // ORDER BY user_id, id.
  function Ordered(works: Works): (r: seq<WorkId>)
    ensures (forall w :: w in r <==> w in works) && |r| == |works.Keys|
    ensures forall i, j :: 0 <= i < j < |r| ==> r[i] != r[j]
    ensures Sorted(r, ByOwner(works))
  {
    ByOwnerIsTotal(works);
    InOrder(works.Keys, ByOwner(works))
  }

  type Groups = map<Key, seq<WorkId>>

  // Works without a primary author are passed over.
  function Grouped(works: Works, order: seq<WorkId>): Groups {
    if order == [] then map[]
    else
      var groups, w := Grouped(works, order[..|order| - 1]), order[|order| - 1];
      if w in works && EffectivePrimary(works[w]).Some?
      then var key := EffectiveKey(works[w]);
           groups[key := (if key in groups then groups[key] else []) + [w]]
      else groups
  }

  // The first member's generation stamps the card.
  function CohortFor(works: Works, key: Key, members: seq<WorkId>): Cohort {
    Cohort(key.user, members, if members != [] && members[0] in works then works[members[0]].generation else 0)
  }

  function CohortsIn(works: Works, groups: Groups): set<Cohort> {
    set k | k in groups && |groups[k]| > 1 :: CohortFor(works, k, groups[k])
  }

  function CohortsOf(works: Works): set<Cohort> {
    CohortsIn(works, Grouped(works, Ordered(works)))
  }

  // Two works of one effective key, both with a primary author.
  ghost predicate KeysClash(works: Works) {
    exists a, b :: Clash(works, a, b)
  }

  lemma {:induction false} GroupHolds(works: Works, order: seq<WorkId>, key: Key, w: WorkId)
    ensures var groups := Grouped(works, order);
            (key in groups && w in groups[key])
            <==> w in order && w in works && EffectivePrimary(works[w]).Some? && EffectiveKey(works[w]) == key
  {
    if order != [] {
      GroupHolds(works, order[..|order| - 1], key, w);
      assert w in order <==> w in order[..|order| - 1] || w == order[|order| - 1];
    }
  }

  lemma {:induction false} GroupDistinct(works: Works, order: seq<WorkId>, key: Key)
    requires forall i, j :: 0 <= i < j < |order| ==> order[i] != order[j]
    ensures var groups := Grouped(works, order);
            key in groups ==> groups[key] != [] && forall i, j :: 0 <= i < j < |groups[key]| ==>
                groups[key][i] != groups[key][j]
  {
    if order != [] {
      var front, last := order[..|order| - 1], order[|order| - 1];
      GroupDistinct(works, front, key);
      GroupHolds(works, front, key, last);
      assert last !in front;
    }
  }

  predicate Clash(works: Works, a: WorkId, b: WorkId) {
    a in works && b in works && a != b && EffectivePrimary(works[a]).Some?
    && EffectiveKey(works[a]) == EffectiveKey(works[b])
  }

  lemma TwoMembers(s: seq<WorkId>, a: WorkId, b: WorkId)
    requires a in s && b in s && a != b
    ensures |s| > 1
  {
    var i :| 0 <= i < |s| && s[i] == a;
    var j :| 0 <= j < |s| && s[j] == b;
  }

  lemma ClashMakesCohort(works: Works, order: seq<WorkId>, a: WorkId, b: WorkId)
    requires Clash(works, a, b) && a in order && b in order
    ensures CohortsIn(works, Grouped(works, order)) != {}
  {
    var groups, key := Grouped(works, order), EffectiveKey(works[a]);
    GroupHolds(works, order, key, a);
    GroupHolds(works, order, key, b);
    TwoMembers(groups[key], a, b);
    assert CohortFor(works, key, groups[key]) in CohortsIn(works, groups);
  }

  lemma CohortMakesClash(works: Works, order: seq<WorkId>) returns (a: WorkId, b: WorkId)
    requires CohortsIn(works, Grouped(works, order)) != {}
    requires forall i, j :: 0 <= i < j < |order| ==> order[i] != order[j]
    ensures Clash(works, a, b)
  {
    var groups := Grouped(works, order);
    var c :| c in CohortsIn(works, groups);
    var key :| key in groups && |groups[key]| > 1 && c == CohortFor(works, key, groups[key]);
    a, b := groups[key][0], groups[key][1];
    GroupDistinct(works, order, key);
    GroupHolds(works, order, key, a);
    GroupHolds(works, order, key, b);
  }

  // The report counts no cohort exactly when no two works clash.
  lemma NoCohortIffNoClash(works: Works)
    ensures CohortsOf(works) == {} <==> !KeysClash(works)
  {
    if KeysClash(works) {
      var a, b :| Clash(works, a, b);
      ClashMakesCohort(works, Ordered(works), a, b);
    }
    if CohortsOf(works) != {} {
      var a, b := CohortMakesClash(works, Ordered(works));
    }
  }

  // CREATE UNIQUE INDEX idx_works_identity_v2: NULLs are distinct.
  ghost predicate IndexBuilds(works: Works) {
    forall a, b :: a in works && b in works && a != b && works[a].primary.Some? ==>
      StoredKey(works[a]) != StoredKey(works[b])
  }

  function StagedWorks(works: Works): Works {
    map w | w in works :: StagedWork(works[w])
  }

  lemma StagedKeys(works: Works)
    requires forall w :: w in works ==> NumberText(works[w])
    ensures forall w :: w in works ==>
              StoredKey(StagedWork(works[w])) == EffectiveKey(works[w])
              && EffectiveKey(StagedWork(works[w])) == EffectiveKey(works[w])
  {
    forall w | w in works
      ensures StoredKey(StagedWork(works[w])) == EffectiveKey(works[w])
              && EffectiveKey(StagedWork(works[w])) == EffectiveKey(works[w])
    {
      StagingIsIdempotent(works[w]);
    }
  }

  // The report says ready exactly when the rewritten keys are unique, so when
  // the index builds.
  lemma StagedIndexBuildsIff(works: Works)
    requires forall w :: w in works ==> NumberText(works[w])
    ensures IndexBuilds(StagedWorks(works)) <==> CohortsOf(works) == {}
  {
    NoCohortIffNoClash(works);
    StagedKeys(works);
    var after := StagedWorks(works);
    if KeysClash(works) {
      var a, b :| Clash(works, a, b);
      assert StoredKey(after[a]) == StoredKey(after[b]) && after[a].primary.Some?;
    } else {
      forall a, b | a in after && b in after && a != b && after[a].primary.Some?
        ensures StoredKey(after[a]) != StoredKey(after[b])
      {
        assert !Clash(works, a, b);
      }
    }
  }

  // A second staging would find the same cohorts.
  lemma StagedCohortsSame(works: Works)
    requires forall w :: w in works ==> NumberText(works[w])
    ensures CohortsOf(StagedWorks(works)) == CohortsOf(works)
  {
    StagedKeys(works);
    SameKeysSameCohorts(works, StagedWorks(works));
  }

  lemma SameKeysSameCohorts(works: Works, after: Works)
    requires after.Keys == works.Keys
    requires forall w :: w in works ==> EffectiveKey(after[w]) == EffectiveKey(works[w])
    requires forall w :: w in works ==> after[w].user == works[w].user && after[w].generation == works[w].generation
    ensures CohortsOf(after) == CohortsOf(works)
  {
    SameGroups(works, after, Ordered(works));
    SameOrder(works, after);
    SameCohorts(works, after, Grouped(works, Ordered(works)));
  }

  lemma SameCohorts(works: Works, after: Works, groups: Groups)
    requires after.Keys == works.Keys
    requires forall w :: w in works ==> w in after && after[w].generation == works[w].generation
    ensures CohortsIn(after, groups) == CohortsIn(works, groups)
  {
    forall k | k in groups ensures CohortFor(after, k, groups[k]) == CohortFor(works, k, groups[k]) {
      var members := groups[k];
      if members != [] {
        var first := members[0];
        assert first in works ==> after[first].generation == works[first].generation;
      }
    }
  }

  lemma {:induction false} SameGroups(works: Works, after: Works, order: seq<WorkId>)
    requires after.Keys == works.Keys
    requires forall w :: w in works ==> EffectiveKey(after[w]) == EffectiveKey(works[w])
    ensures Grouped(after, order) == Grouped(works, order)
  {
    if order != [] {
      SameGroups(works, after, order[..|order| - 1]);
    }
  }

  lemma ByOwnerIsTotal(works: Works)
    ensures TotalOn(ByOwner(works), works.Keys)
  {}

  lemma OrderedIsSorted(works: Works)
    ensures TotalOn(ByOwner(works), works.Keys)
    ensures Sorted(Ordered(works), ByOwner(works)) && Within(Ordered(works), works.Keys)
  {
    ByOwnerIsTotal(works);
    var s := Ordered(works);
    forall i | 0 <= i < |s| ensures s[i] in works.Keys {
      assert s[i] in s;
    }
  }

  lemma SameOrder(works: Works, after: Works)
    requires after.Keys == works.Keys && forall w :: w in works ==> after[w].user == works[w].user
    ensures Ordered(after) == Ordered(works)
  {
    var le := ByOwner(works);
    OrderedIsSorted(works);
    OrderedIsSorted(after);
    SortedEither(works, after, Ordered(after));
    DistinctSeqsAsBags(Ordered(works), Ordered(after));
    SortedIsUnique(Ordered(works), Ordered(after), le, works.Keys);
  }

  lemma SortedEither(works: Works, after: Works, s: seq<WorkId>)
    requires after.Keys == works.Keys && forall w :: w in works ==> after[w].user == works[w].user
    requires Sorted(s, ByOwner(after))
    ensures Sorted(s, ByOwner(works))
  {
    forall i, j | 0 <= i < j < |s| ensures Precedes(works, s[i], s[j]) {
      assert ByOwner(after)(s[i], s[j]);
    }
  }
}
