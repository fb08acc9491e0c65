// `merge_authors_tx`: works, series and monitoring of one author fold onto
// another (crates/livrarr-db/src/sqlite_author.rs:112-385). The link state it
// also folds is MergeFold's.
module AuthorMerge {
  import opened Basics
  import opened Sorting

  type AuthorId = int
  type UserId = int
  type WorkId = int
  type SeriesId = int

  // `legacyKeys` counts the provider columns that are set.
  datatype Author = Author(
    user: UserId, name: string, key: Option<string>, legacyKeys: nat, sortName: Option<string>,
    importId: Option<string>, monitored: bool, newItems: bool, since: Option<int>, language: Option<string>)

  datatype Work = Work(
    user: UserId, author: Option<AuthorId>, authorName: string, mergeGeneration: int, primary: Option<AuthorId>,
    series: Option<SeriesId>, ebook: bool, audiobook: bool, language: Option<string>)

  datatype Series = Series(
    user: UserId, author: AuthorId, grKey: string, ebook: bool, audiobook: bool, language: Option<string>)

  // `work_contributors`: the foreign key to authors is ON DELETE RESTRICT.
  datatype Contributor = Contributor(work: WorkId, author: AuthorId)

  datatype Shelf = Shelf(
    authors: map<AuthorId, Author>, works: map<WorkId, Work>, series: map<SeriesId, Series>,
    rosters: map<SeriesId, string>, contributors: set<Contributor>)

  // UNIQUE(user_id, author_id, gr_key).
  ghost predicate UniqueSeries(series: map<SeriesId, Series>) {
    forall i, j :: i in series && j in series && i != j ==>
      !(series[i].user == series[j].user && series[i].author == series[j].author && series[i].grKey == series[j].grKey)
  }

  // The foreign keys, within one user each.
  ghost predicate Linked(t: Shelf) {
    && (forall s :: s in t.series ==> OwnAuthor(t.authors, t.series[s].author, t.series[s].user))
    && (forall w :: w in t.works && t.works[w].author.Some? ==>
        OwnAuthor(t.authors, t.works[w].author.value, t.works[w].user))
    && (forall w :: w in t.works && t.works[w].series.Some? ==>
        OwnSeries(t.series, t.works[w].series.value, t.works[w].user))
    && t.rosters.Keys <= t.series.Keys
  }

  predicate OwnAuthor(authors: map<AuthorId, Author>, a: AuthorId, user: UserId) {
    a in authors && authors[a].user == user
  }

  predicate OwnSeries(series: map<SeriesId, Series>, s: SeriesId, user: UserId) {
    s in series && series[s].user == user
  }

  ghost predicate Sound(t: Shelf) {
    UniqueSeries(t.series) && Linked(t)
  }

  function FindSeries(series: map<SeriesId, Series>, user: UserId, author: AuthorId,
      grKey: string): (r: Option<SeriesId>)
    requires UniqueSeries(series)
    ensures r.Some? ==> r.value in series && series[r.value].user == user && series[r.value].author == author
                        && series[r.value].grKey == grKey
    ensures r.None? ==> forall i :: i in series ==>
              !(series[i].user == user && series[i].author == author && series[i].grKey == grKey)
  {
    if i :| i in series && series[i].user == user && series[i].author == author && series[i].grKey == grKey
    then Some(i) else None
  }

  // ------------------------------------------------------------------
  // The statements
  // ------------------------------------------------------------------

  function Repointed(
      works: map<WorkId, Work>, user: UserId, survivor: AuthorId, name: string, loser: AuthorId): map<WorkId, Work>
  {
    map w | w in works ::
      if works[w].user == user && works[w].author == Some(loser)
      then works[w].(author := Some(survivor), authorName := name, mergeGeneration := works[w].mergeGeneration + 1)
      else works[w]
  }

  function MergedLanguage(s: Series, l: Series): Option<string> {
    var language := if s.language.Some? then s.language else l.language;
    if (s.ebook || l.ebook || s.audiobook || l.audiobook) && language.None? then Some("en") else language
  }

  function MergedSeries(s: Series, l: Series): Series {
    s.(ebook := s.ebook || l.ebook, audiobook := s.audiobook || l.audiobook, language := MergedLanguage(s, l))
  }

  // Works linked to `from` go to `to`; with `all`, the works already there are
  // restamped as well.
  function Relinked(
      works: map<WorkId, Work>, user: UserId, from: SeriesId, to: SeriesId, merged: Series, all: bool):
    map<WorkId, Work>
  {
    map w | w in works ::
      var work := works[w];
      if work.user == user && (work.series == Some(from) || (all && work.series == Some(to)))
      then work.(series := Some(to), ebook := merged.ebook, audiobook := merged.audiobook)
      else work
  }

  function Relinks(works: map<WorkId, Work>, user: UserId, from: SeriesId, to: SeriesId): map<WorkId, Work> {
    map w | w in works ::
      if works[w].user == user && works[w].series == Some(from) then works[w].(series := Some(to)) else works[w]
  }

  function Reflags(works: map<WorkId, Work>, user: UserId, series: SeriesId, row: Series): map<WorkId, Work> {
    map w | w in works ::
      if works[w].user == user && works[w].series == Some(series)
      then works[w].(ebook := row.ebook, audiobook := row.audiobook) else works[w]
  }

  function MovedRoster(rosters: map<SeriesId, string>, from: SeriesId, to: SeriesId): map<SeriesId, string> {
    if from in rosters && to !in rosters then rosters[to := rosters[from]] - {from} else rosters - {from}
  }

  // One series of the loser: folded onto the survivor's of the same key, or
  // moved.
  function FoldedOne(t: Shelf, user: UserId, survivor: AuthorId, id: SeriesId): Shelf
    requires UniqueSeries(t.series)
  {
    if id !in t.series then t
    else
      var l := t.series[id];
      match FindSeries(t.series, user, survivor, l.grKey)
      case Some(k) =>
        var s := t.series[k];
        var merged := MergedSeries(s, l);
        var changed := merged.ebook != s.ebook || merged.audiobook != s.audiobook;
        t.(series := t.series[k := merged] - {id},
           rosters := MovedRoster(t.rosters, id, k),
           works := Relinked(t.works, user, id, k, merged, changed))
      case None =>
        t.(series := t.series[id := l.(author := survivor)])
  }

  lemma FoldedOneIsUnique(t: Shelf, user: UserId, survivor: AuthorId, id: SeriesId)
    requires UniqueSeries(t.series) && (id in t.series ==> t.series[id].user == user && t.series[id].author != survivor)
    ensures UniqueSeries(FoldedOne(t, user, survivor, id).series)
  {}

  ghost predicate Listed(
      series: map<SeriesId, Series>, ids: seq<SeriesId>, user: UserId, survivor: AuthorId)
  {
    && (forall k :: 0 <= k < |ids| ==>
        ids[k] in series && series[ids[k]].user == user && series[ids[k]].author != survivor)
    && forall i, j :: 0 <= i < j < |ids| ==> ids[i] != ids[j]
  }

  function SeriesOf(series: map<SeriesId, Series>, user: UserId, author: AuthorId): (ids: seq<SeriesId>)
    ensures forall i :: i in ids <==> i in series && series[i].user == user && series[i].author == author
    ensures forall i, j :: 0 <= i < j < |ids| ==> ids[i] != ids[j]
  {
    var mine := set i | i in series && series[i].user == user && series[i].author == author;
    InOrder(mine, (i: SeriesId, j: SeriesId) => i <= j)
  }

  lemma SeriesListed(series: map<SeriesId, Series>, user: UserId, survivor: AuthorId, loser: AuthorId)
    requires survivor != loser
    ensures Listed(series, SeriesOf(series, user, loser), user, survivor)
  {
    var ids := SeriesOf(series, user, loser);
    assert forall k :: 0 <= k < |ids| ==> ids[k] in ids;
  }

  // ------------------------------------------------------------------
  // The series loop
  // ------------------------------------------------------------------

  // A series row of the loser, about to be dealt with.
  ghost predicate Losing(t: Shelf, user: UserId, survivor: AuthorId, id: SeriesId) {
    id in t.series && t.series[id].user == user && t.series[id].author != survivor
  }

  // The row stays, with every flag and language it had.
  ghost predicate Onto(s: Series, after: Series) {
    && after == s.(ebook := after.ebook, audiobook := after.audiobook, language := after.language)
    && (s.ebook ==> after.ebook) && (s.audiobook ==> after.audiobook)
    && (s.language.Some? ==> after.language == s.language)
  }

  lemma FoldedIsSound(t: Shelf, user: UserId, survivor: AuthorId, id: SeriesId)
    requires Sound(t) && Losing(t, user, survivor, id) && OwnAuthor(t.authors, survivor, user)
    ensures var after := FoldedOne(t, user, survivor, id);
            && Sound(after) && after.authors == t.authors && after.contributors == t.contributors
            && after.series.Keys <= t.series.Keys && after.works.Keys == t.works.Keys
  {
    FoldedOneIsUnique(t, user, survivor, id);
    FoldedIsLinked(t, user, survivor, id);
  }

  lemma FoldedIsLinked(t: Shelf, user: UserId, survivor: AuthorId, id: SeriesId)
    requires Sound(t) && Losing(t, user, survivor, id) && OwnAuthor(t.authors, survivor, user)
    ensures Linked(FoldedOne(t, user, survivor, id))
  {}

  lemma OtherSeries(t: Shelf, user: UserId, survivor: AuthorId, id: SeriesId, s: SeriesId)
    requires UniqueSeries(t.series) && Losing(t, user, survivor, id) && s in t.series
    ensures var after := FoldedOne(t, user, survivor, id).series;
            if s == id then s in after ==> after[s] == t.series[s].(author := survivor)
            else s in after && Onto(t.series[s], after[s]) && (t.series[s].author != survivor ==>
                after[s] == t.series[s])
  {}

  // A series of the survivor that stands for the loser's.
  ghost predicate Covers(s: Series, l: Series, survivor: AuthorId) {
    && s.user == l.user && s.author == survivor && s.grKey == l.grKey
    && (l.ebook ==> s.ebook) && (l.audiobook ==> s.audiobook) && (l.language.Some? ==> s.language.Some?)
  }

  ghost predicate Kept(l: Series, t: Shelf, survivor: AuthorId) {
    exists k :: k in t.series && Covers(t.series[k], l, survivor)
  }

  lemma KeptNow(t: Shelf, user: UserId, survivor: AuthorId, id: SeriesId)
    requires UniqueSeries(t.series) && Losing(t, user, survivor, id)
    ensures Kept(t.series[id], FoldedOne(t, user, survivor, id), survivor)
  {
    var after := FoldedOne(t, user, survivor, id).series;
    match FindSeries(t.series, user, survivor, t.series[id].grKey) {
      case Some(k) => assert Covers(after[k], t.series[id], survivor);
      case None => assert Covers(after[id], t.series[id], survivor);
    }
  }

  lemma KeptStays(l: Series, t: Shelf, user: UserId, survivor: AuthorId, id: SeriesId)
    requires UniqueSeries(t.series) && Losing(t, user, survivor, id) && Kept(l, t, survivor)
    ensures Kept(l, FoldedOne(t, user, survivor, id), survivor)
  {
    var k :| k in t.series && Covers(t.series[k], l, survivor);
    OtherSeries(t, user, survivor, id, k);
    assert Covers(FoldedOne(t, user, survivor, id).series[k], l, survivor);
  }

  // The key of the series a work is linked to.
  ghost function LinkKey(t: Shelf, w: WorkId): Option<string> {
    if w in t.works && t.works[w].series.Some? && t.works[w].series.value in t.series
    then Some(t.series[t.works[w].series.value].grKey) else None
  }

  // A work keeps everything but its link and flags, and the link keeps its key.
  ghost predicate KeepsWork(t: Shelf, after: Shelf, w: WorkId) {
    && w in t.works && w in after.works && LinkKey(after, w) == LinkKey(t, w)
    && after.works[w] == t.works[w].(series := after.works[w].series, ebook := after.works[w].ebook,
                                     audiobook := after.works[w].audiobook)
  }

  lemma FoldedWork(t: Shelf, user: UserId, survivor: AuthorId, id: SeriesId, w: WorkId)
    requires Sound(t) && Losing(t, user, survivor, id) && w in t.works
    ensures KeepsWork(t, FoldedOne(t, user, survivor, id), w)
  {}

  predicate Stamped(w: Work, s: Series) {
    w.ebook == s.ebook && w.audiobook == s.audiobook
  }

  lemma KeepsWorkOn(a: Shelf, b: Shelf, c: Shelf, w: WorkId)
    requires KeepsWork(a, b, w) && KeepsWork(b, c, w)
    ensures KeepsWork(a, c, w)
  {}

  function FoldedAll(t: Shelf, user: UserId, survivor: AuthorId, ids: seq<SeriesId>, n: nat): (r: Shelf)
    requires UniqueSeries(t.series) && Listed(t.series, ids, user, survivor) && n <= |ids|
    ensures UniqueSeries(r.series)
    ensures forall k :: n <= k < |ids| ==> ids[k] in r.series && r.series[ids[k]] == t.series[ids[k]]
  {
    if n == 0 then t
    else
      var front := FoldedAll(t, user, survivor, ids, n - 1);
      FoldedOneIsUnique(front, user, survivor, ids[n - 1]);
      assert forall k :: n <= k < |ids| ==> ids[k] != ids[n - 1];
      FoldedOne(front, user, survivor, ids[n - 1])
  }

  lemma {:induction false} AllIsSound(t: Shelf, user: UserId, survivor: AuthorId, ids: seq<SeriesId>, n: nat)
    requires Sound(t) && Listed(t.series, ids, user, survivor) && n <= |ids| && OwnAuthor(t.authors, survivor, user)
    ensures var after := FoldedAll(t, user, survivor, ids, n);
            && Sound(after) && after.authors == t.authors && after.contributors == t.contributors
            && after.series.Keys <= t.series.Keys && after.works.Keys == t.works.Keys
  {
    if n > 0 {
      AllIsSound(t, user, survivor, ids, n - 1);
      FoldedIsSound(FoldedAll(t, user, survivor, ids, n - 1), user, survivor, ids[n - 1]);
    }
  }

  lemma {:induction false} AllOther(
      t: Shelf, user: UserId, survivor: AuthorId, ids: seq<SeriesId>, n: nat, s: SeriesId)
    requires UniqueSeries(t.series) && Listed(t.series, ids, user, survivor) && n <= |ids|
    requires s in t.series && forall k :: 0 <= k < n ==> ids[k] != s
    ensures var after := FoldedAll(t, user, survivor, ids, n).series; s in after && Onto(t.series[s], after[s])
  {
    if n > 0 {
      AllOther(t, user, survivor, ids, n - 1, s);
      OtherSeries(FoldedAll(t, user, survivor, ids, n - 1), user, survivor, ids[n - 1], s);
    }
  }

  lemma {:induction false} AllGone(
      t: Shelf, user: UserId, survivor: AuthorId, ids: seq<SeriesId>, n: nat, k: nat)
    requires UniqueSeries(t.series) && Listed(t.series, ids, user, survivor) && k < n <= |ids|
    ensures var after := FoldedAll(t, user, survivor, ids, n).series;
            ids[k] in after ==> after[ids[k]].author == survivor
  {
    var front := FoldedAll(t, user, survivor, ids, n - 1);
    if k < n - 1 {
      AllGone(t, user, survivor, ids, n - 1, k);
      if ids[k] in front.series {
        OtherSeries(front, user, survivor, ids[n - 1], ids[k]);
      }
    } else {
      OtherSeries(front, user, survivor, ids[n - 1], ids[k]);
    }
  }

  lemma {:induction false} AllKept(
      t: Shelf, user: UserId, survivor: AuthorId, ids: seq<SeriesId>, n: nat, k: nat)
    requires UniqueSeries(t.series) && Listed(t.series, ids, user, survivor) && k < n <= |ids|
    ensures Kept(t.series[ids[k]], FoldedAll(t, user, survivor, ids, n), survivor)
  {
    var front := FoldedAll(t, user, survivor, ids, n - 1);
    if k < n - 1 {
      AllKept(t, user, survivor, ids, n - 1, k);
      KeptStays(t.series[ids[k]], front, user, survivor, ids[n - 1]);
    } else {
      KeptNow(front, user, survivor, ids[n - 1]);
    }
  }

  lemma NextWork(t: Shelf, user: UserId, survivor: AuthorId, ids: seq<SeriesId>, n: nat, w: WorkId)
    requires Sound(t) && Listed(t.series, ids, user, survivor) && n < |ids| && OwnAuthor(t.authors, survivor, user)
    requires w in t.works
    ensures KeepsWork(FoldedAll(t, user, survivor, ids, n), FoldedAll(t, user, survivor, ids, n + 1), w)
  {
    AllIsSound(t, user, survivor, ids, n);
    FoldedWork(FoldedAll(t, user, survivor, ids, n), user, survivor, ids[n], w);
  }

  lemma {:induction false} WorkChain(states: nat -> Shelf, n: nat, w: WorkId)
    requires KeepsWork(states(0), states(0), w)
    requires forall k :: 0 <= k < n ==> KeepsWork(states(k), states(k + 1), w)
    ensures KeepsWork(states(0), states(n), w)
  {
    if n > 0 {
      WorkChain(states, n - 1, w);
      KeepsWorkOn(states(0), states(n - 1), states(n), w);
    }
  }

  lemma AllWork(t: Shelf, user: UserId, survivor: AuthorId, ids: seq<SeriesId>, n: nat, w: WorkId)
    requires Sound(t) && Listed(t.series, ids, user, survivor) && n <= |ids| && OwnAuthor(t.authors, survivor, user)
    requires w in t.works
    ensures KeepsWork(t, FoldedAll(t, user, survivor, ids, n), w)
  {
    var states: nat -> Shelf := (k: nat) => if k <= |ids| then FoldedAll(t, user, survivor, ids, k) else t;
    forall k | 0 <= k < n ensures KeepsWork(states(k), states(k + 1), w) {
      NextWork(t, user, survivor, ids, k, w);
    }
    WorkChain(states, n, w);
  }

  // ------------------------------------------------------------------
  // The author row and the delete
  // ------------------------------------------------------------------

  function Earliest(a: Option<int>, b: Option<int>): Option<int> {
    if a.None? then b else if b.None? then a else Some(Min(a.value, b.value))
  }

  function Either<T>(a: Option<T>, b: Option<T>): Option<T> {
    if a.Some? then a else b
  }

  // `dominant` is `seed::dominant_language` of the survivor's works by then.
  function MergedAuthor(s: Author, l: Author, dominant: Option<string>): Author {
    var monitored, language := s.monitored || l.monitored, Either(s.language, l.language);
    s.(sortName := Either(s.sortName, l.sortName),
       importId := Either(s.importId, l.importId),
       monitored := monitored,
       newItems := s.newItems || l.newItems,
       since := Earliest(s.since, l.since),
       language := if monitored && language.None? then Either(dominant, Some("en")) else language)
  }

  // DELETE FROM authors with its cascades: series go with their author, links
  // to what is gone become NULL.
  function Deleted(t: Shelf, loser: AuthorId): Shelf {
    var series := map s | s in t.series && t.series[s].author != loser :: t.series[s];
    t.(authors := t.authors - {loser},
       series := series,
       rosters := map s | s in t.rosters && s in series :: t.rosters[s],
       works := map w | w in t.works ::
         var work := t.works[w];
         work.(author := if work.author == Some(loser) then None else work.author,
               primary := if work.primary == Some(loser) then None else work.primary,
               series := if work.series.Some? && work.series.value !in series then None else work.series))
  }

  // A contributor row of the author blocks its DELETE.
  predicate Credited(contributors: set<Contributor>, author: AuthorId) {
    exists c :: c in contributors && c.author == author
  }

  type Dominant = (map<WorkId, Work>, UserId, AuthorId) -> Option<string>

  ghost predicate Mergeable(t: Shelf, user: UserId, survivor: AuthorId, loser: AuthorId) {
    Sound(t) && survivor != loser && OwnAuthor(t.authors, survivor, user) && OwnAuthor(t.authors, loser, user)
  }

  function WithWorks(t: Shelf, user: UserId, survivor: AuthorId, loser: AuthorId): (r: Shelf)
    requires Mergeable(t, user, survivor, loser)
    ensures Sound(r)
  {
    t.(works := Repointed(t.works, user, survivor, t.authors[survivor].name, loser))
  }

  function WithSeries(t: Shelf, user: UserId, survivor: AuthorId, loser: AuthorId): (r: Shelf)
    requires Mergeable(t, user, survivor, loser)
    ensures Sound(r) && r.authors == t.authors && r.contributors == t.contributors
  {
    var moved, ids := WithWorks(t, user, survivor, loser), SeriesOf(t.series, user, loser);
    SeriesListed(t.series, user, survivor, loser);
    AllIsSound(moved, user, survivor, ids, |ids|);
    FoldedAll(moved, user, survivor, ids, |ids|)
  }

  function Merged(t: Shelf, user: UserId, survivor: AuthorId, loser: AuthorId, dominant: Dominant): Shelf
    requires Mergeable(t, user, survivor, loser)
  {
    var r := WithSeries(t, user, survivor, loser);
    var author := MergedAuthor(r.authors[survivor], r.authors[loser], dominant(r.works, user, survivor));
    Deleted(r.(authors := r.authors[survivor := author]), loser)
  }

  datatype Error = NotFound | Constraint

  datatype MergeReport = MergeReport(worksMoved: nat, seriesMoved: nat, seriesFolded: nat)

  class Library {
    var authors: map<AuthorId, Author>
    var works: map<WorkId, Work>
    var series: map<SeriesId, Series>
    var rosters: map<SeriesId, string>
    var contributors: set<Contributor>

    function Current(): Shelf
      reads this
    {
      Shelf(authors, works, series, rosters, contributors)
    }

    // `AuthorDb::merge_authors`: refused whole when the loser is credited on
    // any work, since the final DELETE then fails.
    method MergeAuthors(user: UserId, survivor: AuthorId, loser: AuthorId, dominant: Dominant)
      returns (r: Result<MergeReport, Error>)
      requires Sound(Current())
      modifies this
      ensures r.Ok? <==> Mergeable(old(Current()), user, survivor, loser) && !Credited(old(contributors), loser)
      ensures r.Err? ==> Current() == old(Current())
      ensures r.Ok? ==> Current() == Merged(old(Current()), user, survivor, loser, dominant)
      ensures r.Ok? ==>
                && r.value.worksMoved == |WorksOf(old(works), user, loser)|
                && r.value.seriesMoved + r.value.seriesFolded == |SeriesOf(old(series), user, loser)|
    {
      if survivor == loser {
        return Err(Constraint);
      }
      if !OwnAuthor(authors, survivor, user) || !OwnAuthor(authors, loser, user) {
        return Err(NotFound);
      }
      var before := Current();
      works := Repointed(works, user, survivor, authors[survivor].name, loser);
      var ids := SeriesOf(series, user, loser);
      SeriesListed(series, user, survivor, loser);
      var moved, merged := FoldSeries(user, survivor, ids);
      assert Current() == WithSeries(before, user, survivor, loser);
      var author := MergedAuthor(authors[survivor], authors[loser], dominant(works, user, survivor));
      authors := authors[survivor := author];
      if Credited(contributors, loser) {
        authors, works, series, rosters := before.authors, before.works, before.series, before.rosters;
        return Err(Constraint);
      }
      var after := Deleted(Current(), loser);
      authors, works, series, rosters := after.authors, after.works, after.series, after.rosters;
      r := Ok(MergeReport(|WorksOf(before.works, user, loser)|, moved, merged));
    }

    // The series loop; the unique key holds after every row.
    method FoldSeries(user: UserId, survivor: AuthorId, ids: seq<SeriesId>) returns (moved: nat, folded: nat)
      requires UniqueSeries(series) && Listed(series, ids, user, survivor)
      modifies `works, `series, `rosters
      ensures Current() == FoldedAll(old(Current()), user, survivor, ids, |ids|)
      ensures moved + folded == |ids|
    {
      ghost var before := Current();
      moved, folded := 0, 0;
      for n := 0 to |ids|
        invariant Current() == FoldedAll(before, user, survivor, ids, n) && UniqueSeries(series)
        invariant moved + folded == n
      {
        var merged := FoldSeriesRow(user, survivor, ids[n]);
        if merged { folded := folded + 1; } else { moved := moved + 1; }
      }
    }

    method FoldSeriesRow(user: UserId, survivor: AuthorId, id: SeriesId) returns (merged: bool)
      requires UniqueSeries(series) && id in series && series[id].user == user && series[id].author != survivor
      modifies `works, `series, `rosters
      ensures Current() == FoldedOne(old(Current()), user, survivor, id) && UniqueSeries(series)
      ensures merged <==> FindSeries(old(series), user, survivor, old(series)[id].grKey).Some?
    {
      FoldedOneIsUnique(Current(), user, survivor, id);
      var l := series[id];
      match FindSeries(series, user, survivor, l.grKey) {
        case Some(k) =>
          var s := series[k];
          var row := MergedSeries(s, l);
          series := series[k := row];
          assert UniqueSeries(series);
          if id in rosters && k !in rosters {
            rosters := rosters[k := rosters[id]] - {id};
          }
          if row.ebook != s.ebook || row.audiobook != s.audiobook {
            Restamp(user, id, k, row);
          } else {
            works := Relinked(works, user, id, k, row, false);
          }
          series := series - {id};
          rosters := rosters - {id};
          merged := true;
        case None =>
          series := series[id := l.(author := survivor)];
          merged := false;
      }
    }

    // The two UPDATEs of a flag change: first the links, then the flags of
    // every work under the survivor's series.
    method Restamp(user: UserId, from: SeriesId, to: SeriesId, row: Series)
      modifies `works
      ensures works == Relinked(old(works), user, from, to, row, true)
    {
      ghost var before := works;
      works := Relinks(works, user, from, to);
      works := Reflags(works, user, to, row);
      forall w | w in before ensures works[w] == Relinked(before, user, from, to, row, true)[w] {}
    }
  }

  function WorksOf(works: map<WorkId, Work>, user: UserId, author: AuthorId): set<WorkId> {
    set w | w in works && works[w].user == user && works[w].author == Some(author)
  }

  // ------------------------------------------------------------------
  // What a merge keeps
  // ------------------------------------------------------------------

  lemma NoSeriesLeft(t: Shelf, user: UserId, survivor: AuthorId, loser: AuthorId, s: SeriesId)
    requires Mergeable(t, user, survivor, loser) && s in WithSeries(t, user, survivor, loser).series
    ensures WithSeries(t, user, survivor, loser).series[s].author != loser
  {
    var r, ids := WithSeries(t, user, survivor, loser), SeriesOf(t.series, user, loser);
    var moved := WithWorks(t, user, survivor, loser);
    SeriesListed(t.series, user, survivor, loser);
    AllIsSound(moved, user, survivor, ids, |ids|);
    if s in ids {
      var k :| 0 <= k < |ids| && ids[k] == s;
      AllGone(moved, user, survivor, ids, |ids|, k);
    } else {
      AllOther(moved, user, survivor, ids, |ids|, s);
    }
  }

  // The DELETE finds nothing left to cascade over but primary-author links.
  lemma NothingCascades(t: Shelf, user: UserId, survivor: AuthorId, loser: AuthorId, dominant: Dominant)
    requires Mergeable(t, user, survivor, loser)
    ensures var r, after := WithSeries(t, user, survivor, loser), Merged(t, user, survivor, loser, dominant);
            && after.series == r.series && after.rosters == r.rosters && after.works.Keys == r.works.Keys
            && forall w :: w in r.works ==>
                 after.works[w] == r.works[w].(primary := if r.works[w].primary == Some(loser) then None
                                                          else r.works[w].primary)
  {
    var r, after := WithSeries(t, user, survivor, loser), Merged(t, user, survivor, loser, dominant);
    forall s | s in r.series ensures r.series[s].author != loser {
      NoSeriesLeft(t, user, survivor, loser, s);
    }
    assert after.series == r.series;
    assert after.rosters == r.rosters;
    forall w | w in r.works
      ensures after.works[w] == r.works[w].(primary := if r.works[w].primary == Some(loser) then None
                                                       else r.works[w].primary)
    {
      MovedWork(t, user, survivor, loser, w);
    }
  }

  lemma MovedWork(t: Shelf, user: UserId, survivor: AuthorId, loser: AuthorId, w: WorkId)
    requires Mergeable(t, user, survivor, loser) && w in WithSeries(t, user, survivor, loser).works
    ensures var r := WithSeries(t, user, survivor, loser);
            && w in t.works && LinkKey(r, w) == LinkKey(t, w)
            && (var base := if t.works[w].author == Some(loser)
                 then t.works[w].(author := Some(survivor), authorName := t.authors[survivor].name,
                                  mergeGeneration := t.works[w].mergeGeneration + 1)
                 else t.works[w];
                r.works[w] == base.(series := r.works[w].series, ebook := r.works[w].ebook,
                                    audiobook := r.works[w].audiobook))
  {
    var moved, ids := WithWorks(t, user, survivor, loser), SeriesOf(t.series, user, loser);
    SeriesListed(t.series, user, survivor, loser);
    AllIsSound(moved, user, survivor, ids, |ids|);
    AllWork(moved, user, survivor, ids, |ids|, w);
    assert LinkKey(moved, w) == LinkKey(t, w);
  }

  // No work is lost: each of the loser's ends with the survivor under its
  // name, and the rest keep their author; a series link leads to a live
  // series of the same key. Only primary-author links to the loser are lost.
  lemma WorksSurvive(t: Shelf, user: UserId, survivor: AuthorId, loser: AuthorId, dominant: Dominant, w: WorkId)
    requires Mergeable(t, user, survivor, loser) && w in t.works
    ensures var after := Merged(t, user, survivor, loser, dominant);
            && w in after.works
            && after.works[w].author == (if t.works[w].author == Some(loser) then Some(survivor) else t.works[w].author)
            && (t.works[w].author == Some(loser) ==>
                  after.works[w].authorName == t.authors[survivor].name
                  && after.works[w].mergeGeneration == t.works[w].mergeGeneration + 1)
            && (t.works[w].author != Some(loser) ==>
                  after.works[w].authorName == t.works[w].authorName
                  && after.works[w].mergeGeneration == t.works[w].mergeGeneration)
            && LinkKey(after, w) == LinkKey(t, w) && after.works[w].series.Some? == t.works[w].series.Some?
            && after.works[w].primary
               == (if t.works[w].primary == Some(loser) then None else t.works[w].primary)
            && after.works.Keys == t.works.Keys
  {
    var r := WithSeries(t, user, survivor, loser);
    NothingCascades(t, user, survivor, loser, dominant);
    var moved, ids := WithWorks(t, user, survivor, loser), SeriesOf(t.series, user, loser);
    SeriesListed(t.series, user, survivor, loser);
    AllIsSound(moved, user, survivor, ids, |ids|);
    MovedWork(t, user, survivor, loser, w);
    assert r.works[w].series.Some? <==> t.works[w].series.Some?;
  }

  lemma MergedIsSound(t: Shelf, user: UserId, survivor: AuthorId, loser: AuthorId, dominant: Dominant)
    requires Mergeable(t, user, survivor, loser)
    ensures var after := Merged(t, user, survivor, loser, dominant);
            && Sound(after) && after.authors.Keys == t.authors.Keys - {loser} && after.contributors == t.contributors
            && (forall a :: a in after.authors && a != survivor ==> after.authors[a] == t.authors[a])
            && after.authors[survivor].key == t.authors[survivor].key
            && after.authors[survivor].user == user
            && after.authors[survivor].legacyKeys == t.authors[survivor].legacyKeys
  {
    var r, after := WithSeries(t, user, survivor, loser), Merged(t, user, survivor, loser, dominant);
    NothingCascades(t, user, survivor, loser, dominant);
    forall s | s in after.series ensures OwnAuthor(after.authors, after.series[s].author, after.series[s].user) {
      NoSeriesLeft(t, user, survivor, loser, s);
    }
    forall w | w in after.works && after.works[w].author.Some?
      ensures OwnAuthor(after.authors, after.works[w].author.value, after.works[w].user)
    {
      MovedWork(t, user, survivor, loser, w);
    }
  }

  // No series is lost: each of the loser's has the survivor's series of its
  // key, monitored wherever it was; every other series stays with its author.
  lemma SeriesSurvive(t: Shelf, user: UserId, survivor: AuthorId, loser: AuthorId, dominant: Dominant, s: SeriesId)
    requires Mergeable(t, user, survivor, loser) && s in t.series
    ensures var after := Merged(t, user, survivor, loser, dominant);
            if t.series[s].author == loser then Kept(t.series[s], after, survivor)
            else s in after.series && Onto(t.series[s], after.series[s])
  {
    var moved, ids := WithWorks(t, user, survivor, loser), SeriesOf(t.series, user, loser);
    SeriesListed(t.series, user, survivor, loser);
    NothingCascades(t, user, survivor, loser, dominant);
    if t.series[s].author == loser {
      assert OwnAuthor(t.authors, loser, t.series[s].user);
      var k :| 0 <= k < |ids| && ids[k] == s;
      AllKept(moved, user, survivor, ids, |ids|, k);
      var r := WithSeries(t, user, survivor, loser);
      var c :| c in r.series && Covers(r.series[c], t.series[s], survivor);
      assert Covers(Merged(t, user, survivor, loser, dominant).series[c], t.series[s], survivor);
    } else {
      AllOther(moved, user, survivor, ids, |ids|, s);
    }
  }

  // ------------------------------------------------------------------
  // Flags
  // ------------------------------------------------------------------

  // Nothing happens to the series of this key, nor to the works linked to them.
  ghost predicate QuietFor(a: Shelf, b: Shelf, key: string) {
    (forall s :: SeriesQuiet(a, b, key, s)) && forall w :: WorkQuiet(a, b, key, w)
  }

  ghost predicate SeriesQuiet(a: Shelf, b: Shelf, key: string, s: SeriesId) {
    && (s in a.series && a.series[s].grKey == key ==> s in b.series && b.series[s] == a.series[s])
    && (s in b.series ==> s in a.series && (b.series[s].grKey == key ==> a.series[s] == b.series[s]))
  }

  ghost predicate WorkQuiet(a: Shelf, b: Shelf, key: string, w: WorkId) {
    w in a.works && LinkKey(a, w) == Some(key) ==>
      w in b.works && b.works[w] == a.works[w] && LinkKey(b, w) == Some(key)
  }

  lemma OtherKey(t: Shelf, user: UserId, survivor: AuthorId, id: SeriesId, key: string)
    requires Sound(t) && Losing(t, user, survivor, id) && t.series[id].grKey != key
    ensures QuietFor(t, FoldedOne(t, user, survivor, id), key)
  {
    var after := FoldedOne(t, user, survivor, id);
    forall s ensures SeriesQuiet(t, after, key, s) {}
    forall w ensures WorkQuiet(t, after, key, w) {}
  }

  lemma QuietOn(a: Shelf, b: Shelf, c: Shelf, key: string)
    requires QuietFor(a, b, key) && QuietFor(b, c, key)
    ensures QuietFor(a, c, key)
  {
    forall s ensures SeriesQuiet(a, c, key, s) {
      assert SeriesQuiet(a, b, key, s) && SeriesQuiet(b, c, key, s);
    }
    forall w ensures WorkQuiet(a, c, key, w) {
      assert WorkQuiet(a, b, key, w) && WorkQuiet(b, c, key, w);
    }
  }

  lemma {:induction false} QuietChain(states: nat -> Shelf, n: nat, m: nat, key: string)
    requires n <= m && forall k :: n <= k < m ==> QuietFor(states(k), states(k + 1), key)
    ensures QuietFor(states(n), states(m), key)
  {
    if n < m {
      QuietChain(states, n, m - 1, key);
      QuietOn(states(n), states(m - 1), states(m), key);
    } else {
      QuietSelf(states(n), key);
    }
  }

  // The turns of other keys are quiet.
  lemma QuietTurns(
      t: Shelf, user: UserId, survivor: AuthorId, ids: seq<SeriesId>, n: nat, m: nat, key: string)
    requires Sound(t) && Listed(t.series, ids, user, survivor) && n <= m <= |ids|
    requires OwnAuthor(t.authors, survivor, user) && forall k :: n <= k < m ==> t.series[ids[k]].grKey != key
    ensures QuietFor(FoldedAll(t, user, survivor, ids, n), FoldedAll(t, user, survivor, ids, m), key)
  {
    var states: nat -> Shelf := (k: nat) => if k <= |ids| then FoldedAll(t, user, survivor, ids, k) else t;
    forall k | n <= k < m ensures QuietFor(states(k), states(k + 1), key) {
      QuietTurn(t, user, survivor, ids, k, key);
    }
    QuietChain(states, n, m, key);
  }

  lemma QuietSelf(t: Shelf, key: string)
    ensures QuietFor(t, t, key)
  {
    forall w ensures WorkQuiet(t, t, key, w) {}
  }

  lemma QuietTurn(t: Shelf, user: UserId, survivor: AuthorId, ids: seq<SeriesId>, n: nat, key: string)
    requires Sound(t) && Listed(t.series, ids, user, survivor) && n < |ids|
    requires OwnAuthor(t.authors, survivor, user) && t.series[ids[n]].grKey != key
    ensures QuietFor(FoldedAll(t, user, survivor, ids, n), FoldedAll(t, user, survivor, ids, n + 1), key)
  {
    AllIsSound(t, user, survivor, ids, n);
    OtherKey(FoldedAll(t, user, survivor, ids, n), user, survivor, ids[n], key);
  }

  // What the turn of one series does to the flags, its own and those of the
  // works linked to it or to its counterpart.
  ghost predicate Flagged(t: Shelf, after: Shelf, user: UserId, survivor: AuthorId, id: SeriesId, w: WorkId)
    requires UniqueSeries(t.series) && id in t.series && w in t.works
  {
    w in after.works &&
    var l, was, work := t.series[id], t.works[w], after.works[w];
    match FindSeries(t.series, user, survivor, l.grKey)
    case None =>
      && id in after.series && after.series[id] == l.(author := survivor)
      && (was.series == Some(id) ==> work.series == Some(id) && SameFlags(work, was))
    case Some(k) =>
      && id !in after.series && k in after.series
      && var s, row := t.series[k], after.series[k];
      && row == s.(ebook := row.ebook, audiobook := row.audiobook, language := row.language)
      && (row.ebook <==> s.ebook || l.ebook) && (row.audiobook <==> s.audiobook || l.audiobook)
      && (row.ebook || row.audiobook ==> row.language.Some?)
      && (was.series == Some(id) ==> work.series == Some(k) && Stamped(work, row))
      && (was.series == Some(k) ==>
            work.series == Some(k)
            && if s.ebook == row.ebook && s.audiobook == row.audiobook then SameFlags(work, was)
               else Stamped(work, row))
  }

  predicate SameFlags(a: Work, b: Work) {
    a.ebook == b.ebook && a.audiobook == b.audiobook
  }

  lemma FlaggedNow(t: Shelf, user: UserId, survivor: AuthorId, id: SeriesId, w: WorkId)
    requires Sound(t) && Losing(t, user, survivor, id) && w in t.works
    ensures Flagged(t, FoldedOne(t, user, survivor, id), user, survivor, id, w)
  {}

  // Quiet turns before and after do not matter to it.
  lemma FlaggedBetween(
      t: Shelf, front: Shelf, back: Shelf, after: Shelf, user: UserId, survivor: AuthorId, id: SeriesId, w: WorkId)
    requires Sound(t) && Sound(front) && Sound(back) && Losing(t, user, survivor, id)
    requires id in front.series && w in t.works && w in front.works && w in back.works && w in after.works
    requires Flagged(front, back, user, survivor, id, w) && LinkKey(front, w) == LinkKey(t, w)
    requires QuietFor(t, front, t.series[id].grKey) && QuietFor(back, after, t.series[id].grKey)
    requires LinkKey(back, w) == LinkKey(front, w)
    ensures Flagged(t, after, user, survivor, id, w)
  {
    var key := t.series[id].grKey;
    var k, j := FindSeries(t.series, user, survivor, key), FindSeries(front.series, user, survivor, key);
    assert k.Some? ==> SeriesQuiet(t, front, key, k.value);
    assert j.Some? ==> SeriesQuiet(t, front, key, j.value);
    assert k == j;
    assert SeriesQuiet(t, front, key, id) && SeriesQuiet(back, after, key, id);
    assert k.Some? ==> SeriesQuiet(back, after, key, k.value);
    assert WorkQuiet(t, front, key, w) && WorkQuiet(back, after, key, w);
    if t.works[w].series == Some(id) || (k.Some? && t.works[w].series == k) {
      assert LinkKey(t, w) == Some(key);
    }
  }

  // Flags follow the whole merge: a series that both had is monitored exactly
  // where one of the two was and then has a language, a work that came with the
  // loser's takes its flags, and a work of the survivor's only when they
  // changed; a series only the loser had moves as it is.
  lemma FlagsFollow(
      t: Shelf, user: UserId, survivor: AuthorId, loser: AuthorId, dominant: Dominant, id: SeriesId, w: WorkId)
    requires Mergeable(t, user, survivor, loser) && w in t.works
    requires id in t.series && t.series[id].author == loser
    ensures Flagged(t, Merged(t, user, survivor, loser, dominant), user, survivor, id, w)
  {
    var moved, ids := WithWorks(t, user, survivor, loser), SeriesOf(t.series, user, loser);
    assert OwnAuthor(t.authors, loser, t.series[id].user);
    SeriesListed(t.series, user, survivor, loser);
    var n :| 0 <= n < |ids| && ids[n] == id;
    FlaggedAtTurn(moved, user, survivor, ids, n, w);
    assert SameFlags(moved.works[w], t.works[w]) && moved.works[w].series == t.works[w].series;
    FlaggedWithin(t, user, survivor, loser, dominant, id, w);
  }

  // The author row and the delete do not matter to it.
  lemma FlaggedWithin(
      t: Shelf, user: UserId, survivor: AuthorId, loser: AuthorId, dominant: Dominant, id: SeriesId, w: WorkId)
    requires Mergeable(t, user, survivor, loser) && w in t.works && id in t.series
    requires Flagged(t, WithSeries(t, user, survivor, loser), user, survivor, id, w)
    ensures Flagged(t, Merged(t, user, survivor, loser, dominant), user, survivor, id, w)
  {
    NothingCascades(t, user, survivor, loser, dominant);
  }

  lemma FlaggedAtTurn(t: Shelf, user: UserId, survivor: AuthorId, ids: seq<SeriesId>, n: nat, w: WorkId)
    requires Sound(t) && Listed(t.series, ids, user, survivor) && n < |ids| && w in t.works
    requires OwnAuthor(t.authors, survivor, user)
    requires forall k :: 0 <= k < |ids| ==> t.series[ids[k]].author == t.series[ids[n]].author
    ensures Flagged(t, FoldedAll(t, user, survivor, ids, |ids|), user, survivor, ids[n], w)
  {
    var key := t.series[ids[n]].grKey;
    var front, back := FoldedAll(t, user, survivor, ids, n), FoldedAll(t, user, survivor, ids, n + 1);
    AllIsSound(t, user, survivor, ids, n);
    AllIsSound(t, user, survivor, ids, n + 1);
    AllIsSound(t, user, survivor, ids, |ids|);
    QuietAround(t, user, survivor, ids, n);
    AllWork(t, user, survivor, ids, n, w);
    NextWork(t, user, survivor, ids, n, w);
    FlaggedNow(front, user, survivor, ids[n], w);
    FlaggedBetween(t, front, back, FoldedAll(t, user, survivor, ids, |ids|), user, survivor, ids[n], w);
  }

  lemma QuietAround(t: Shelf, user: UserId, survivor: AuthorId, ids: seq<SeriesId>, n: nat)
    requires Sound(t) && Listed(t.series, ids, user, survivor) && n < |ids|
    requires OwnAuthor(t.authors, survivor, user)
    requires forall k :: 0 <= k < |ids| ==> t.series[ids[k]].author == t.series[ids[n]].author
    ensures var key := t.series[ids[n]].grKey;
            && QuietFor(t, FoldedAll(t, user, survivor, ids, n), key)
            && QuietFor(FoldedAll(t, user, survivor, ids, n + 1), FoldedAll(t, user, survivor, ids, |ids|), key)
  {
    var key := t.series[ids[n]].grKey;
    forall k | 0 <= k < |ids| && k != n ensures t.series[ids[k]].grKey != key {
      assert ids[k] != ids[n];
    }
    QuietTurns(t, user, survivor, ids, 0, n, key);
    QuietTurns(t, user, survivor, ids, n + 1, |ids|, key);
  }

  // Monitoring only ever grows, and a monitored survivor has a language.
  lemma MonitoringGrows(s: Author, l: Author, dominant: Option<string>)
    ensures var m := MergedAuthor(s, l, dominant);
            && (m.monitored <==> s.monitored || l.monitored) && (m.newItems <==> s.newItems || l.newItems)
            && (m.monitored ==> m.language.Some?)
            && (s.language.Some? ==> m.language == s.language)
            && (m.since.Some? <==> s.since.Some? || l.since.Some?)
            && (s.since.Some? ==> m.since.value <= s.since.value)
            && (l.since.Some? ==> m.since.value <= l.since.value)
  {}

  // Author 2 is only credited on a work of author 1, and that is enough to keep
  // it from being merged.
  method CreditedLoserIsRefused(lib: Library, dominant: Dominant) returns (r: Result<MergeReport, Error>)
    requires lib.Current() == Shared()
    modifies lib
    ensures Mergeable(Shared(), 1, 1, 2) && r.Err? && lib.Current() == Shared()
  {
    r := lib.MergeAuthors(1, 1, 2, dominant);
    assert Contributor(5, 2) in Shared().contributors;
  }

  function Shared(): Shelf {
    var author := Author(1, "N. N.", Some("n n"), 0, None, None, false, false, None, None);
    Shelf(map[1 := author, 2 := author],
          map[5 := Work(1, Some(1), "N. N.", 1, Some(1), None, false, false, None)], map[], map[], {Contributor(5, 2)})
  }
}
