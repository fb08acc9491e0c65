// The startup repair of duplicate authors
// (crates/livrarr-db/src/pool.rs:272-382): key what has no key, merge every
// group of one key onto its best member, then build the unique index.
module AuthorRepair {
  import opened Basics
  import opened Sorting
  import opened AuthorMerge

  datatype GroupKey = GroupKey(user: UserId, key: string)

  // Step 1 for one author: a name without a readable key stays NULL.
  function KeyedOne(a: Author, canonicalOf: string -> string): Author {
    if a.key.None? && canonicalOf(a.name) != "" then a.(key := Some(canonicalOf(a.name))) else a
  }

  function KeyedSome(authors: map<AuthorId, Author>, canonicalOf: string -> string, done: set<AuthorId>):
    map<AuthorId, Author>
  {
    map a | a in authors :: if a in done then KeyedOne(authors[a], canonicalOf) else authors[a]
  }

  function Keyed(t: Shelf, canonicalOf: string -> string): Shelf {
    t.(authors := KeyedSome(t.authors, canonicalOf, t.authors.Keys))
  }

  lemma KeyedIsSound(t: Shelf, canonicalOf: string -> string)
    requires Sound(t)
    ensures Sound(Keyed(t, canonicalOf)) && Keyed(t, canonicalOf).authors.Keys == t.authors.Keys
  {
    var after := Keyed(t, canonicalOf);
    forall a | a in t.authors ensures a in after.authors && after.authors[a].user == t.authors[a].user {}
  }

  function Group(authors: map<AuthorId, Author>, g: GroupKey): set<AuthorId> {
    set a | a in authors && authors[a].user == g.user && authors[a].key == Some(g.key)
  }

  function GroupsOf(authors: map<AuthorId, Author>): set<GroupKey> {
    set a | a in authors && authors[a].key.Some? :: GroupKey(authors[a].user, authors[a].key.value)
  }

  // GROUP BY user_id, normalized_name HAVING COUNT(*) > 1.
  function Duplicates(authors: map<AuthorId, Author>): set<GroupKey> {
    set g | g in GroupsOf(authors) && |Group(authors, g)| > 1
  }

  function WorkCount(t: Shelf, a: AuthorId): nat {
    if a in t.authors then |WorksOf(t.works, t.authors[a].user, a)| else 0
  }

  function LegacyKeys(t: Shelf, a: AuthorId): nat {
    if a in t.authors then t.authors[a].legacyKeys else 0
  }

  // Most works, then most provider keys, then the lowest id.
  predicate RanksBefore(t: Shelf, a: AuthorId, b: AuthorId) {
    WorkCount(t, a) > WorkCount(t, b)
    || (WorkCount(t, a) == WorkCount(t, b)
        && (LegacyKeys(t, a) > LegacyKeys(t, b) || (LegacyKeys(t, a) == LegacyKeys(t, b) && a <= b)))
  }

  function ByRank(t: Shelf): (AuthorId, AuthorId) -> bool {
    (a, b) => RanksBefore(t, a, b)
  }

  // The author that an author ends as.
  function Keeper(t: Shelf, a: AuthorId): (k: AuthorId)
    requires a in t.authors
    ensures k in t.authors && t.authors[k].user == t.authors[a].user && t.authors[k].key == t.authors[a].key
  {
    if t.authors[a].key.None? then a
    else
      var group := Group(t.authors, GroupKey(t.authors[a].user, t.authors[a].key.value));
      assert a in group;
      Least(group, ByRank(t))
  }

  // The keeper is the maximum of its group, and alone in being so.
  lemma KeeperIsBest(t: Shelf, a: AuthorId, b: AuthorId)
    requires a in t.authors && b in t.authors
    requires t.authors[a].user == t.authors[b].user && t.authors[a].key == t.authors[b].key && t.authors[a].key.Some?
    ensures Keeper(t, a) == Keeper(t, b) && RanksBefore(t, Keeper(t, a), b)
    ensures RanksBefore(t, b, Keeper(t, a)) ==> b == Keeper(t, a)
  {
    var group := Group(t.authors, GroupKey(t.authors[a].user, t.authors[a].key.value));
    assert b in group;
    assert ByRank(t)(Keeper(t, a), b);
  }

  // idx_authors_identity can be built.
  ghost predicate IndexBuilds(authors: map<AuthorId, Author>) {
    forall a, b :: a in authors && b in authors && a != b && authors[a].key.Some? ==>
      !(authors[a].user == authors[b].user && authors[a].key == authors[b].key)
  }

  // ------------------------------------------------------------------
  // One group
  // ------------------------------------------------------------------

  // A work of a loser goes to the keeper, every other stays; links keep their
  // key and stay live.
  ghost predicate WorkAbsorbed(t: Shelf, m: Shelf, keeper: AuthorId, losers: set<AuthorId>, w: WorkId)
    requires w in t.works && w in m.works
  {
    && m.works[w].user == t.works[w].user
    && m.works[w].author == (if t.works[w].author.Some? && t.works[w].author.value in losers then Some(keeper)
                             else t.works[w].author)
    && LinkKey(m, w) == LinkKey(t, w) && m.works[w].series.Some? == t.works[w].series.Some?
  }

  // The losers are gone and the keeper is ranked and keyed as it was.
  ghost predicate Absorbed(t: Shelf, m: Shelf, user: UserId, keeper: AuthorId, losers: set<AuthorId>) {
    && Sound(m) && m.authors.Keys == t.authors.Keys - losers && m.contributors == t.contributors
    && keeper in m.authors && keeper in t.authors
    && (forall a :: a in m.authors && a != keeper ==> m.authors[a] == t.authors[a])
    && SameRank(t.authors[keeper], m.authors[keeper])
    && m.works.Keys == t.works.Keys
    && forall w :: w in t.works ==> WorkAbsorbed(t, m, keeper, losers, w)
  }

  ghost predicate SameRank(a: Author, b: Author) {
    a.user == b.user && a.key == b.key && a.legacyKeys == b.legacyKeys
  }

  lemma AbsorbOne(
      t: Shelf, m: Shelf, user: UserId, keeper: AuthorId, losers: set<AuthorId>, loser: AuthorId, dominant: Dominant)
    requires Absorbed(t, m, user, keeper, losers) && Mergeable(m, user, keeper, loser)
    ensures Absorbed(t, Merged(m, user, keeper, loser, dominant), user, keeper, losers + {loser})
  {
    var after := Merged(m, user, keeper, loser, dominant);
    MergedIsSound(m, user, keeper, loser, dominant);
    forall w | w in m.works ensures w in after.works && WorkAbsorbed(m, after, keeper, {loser}, w) {
      WorksSurvive(m, user, keeper, loser, dominant, w);
      WorkKeepsUser(m, user, keeper, loser, dominant, w);
    }
    SameWorkIds(m, user, keeper, loser, dominant);
    forall w | w in t.works ensures WorkAbsorbed(t, after, keeper, losers + {loser}, w) {
      assert WorkAbsorbed(t, m, keeper, losers, w) && WorkAbsorbed(m, after, keeper, {loser}, w);
    }
  }

  lemma SameWorkIds(m: Shelf, user: UserId, keeper: AuthorId, loser: AuthorId, dominant: Dominant)
    requires Mergeable(m, user, keeper, loser)
    ensures Merged(m, user, keeper, loser, dominant).works.Keys == m.works.Keys
  {
    NothingCascades(m, user, keeper, loser, dominant);
    var moved, ids := WithWorks(m, user, keeper, loser), SeriesOf(m.series, user, loser);
    SeriesListed(m.series, user, keeper, loser);
    AllIsSound(moved, user, keeper, ids, |ids|);
  }

  lemma WorkKeepsUser(m: Shelf, user: UserId, keeper: AuthorId, loser: AuthorId, dominant: Dominant, w: WorkId)
    requires Mergeable(m, user, keeper, loser) && w in m.works && w in Merged(m, user, keeper, loser, dominant).works
    ensures Merged(m, user, keeper, loser, dominant).works[w].user == m.works[w].user
  {
    NothingCascades(m, user, keeper, loser, dominant);
    MovedWork(m, user, keeper, loser, w);
  }

  ghost function Among(ranked: seq<AuthorId>, n: nat): set<AuthorId>
    requires n <= |ranked|
  {
    set k | 1 <= k < n :: ranked[k]
  }

  // Merges a ranked group onto its first member; stops at a loser that is
  // still credited.
  method MergeGroup(lib: Library, user: UserId, ranked: seq<AuthorId>, dominant: Dominant) returns (ok: bool)
    requires Sound(lib.Current()) && ranked != []
    requires forall k :: 0 <= k < |ranked| ==> OwnAuthor(lib.authors, ranked[k], user)
    requires forall i, j :: 0 <= i < j < |ranked| ==> ranked[i] != ranked[j]
    modifies lib
    ensures ok <==> forall k :: 1 <= k < |ranked| ==> !Credited(old(lib.contributors), ranked[k])
    ensures ok ==> Absorbed(old(lib.Current()), lib.Current(), user, ranked[0], Among(ranked, |ranked|))
    ensures ok ==> Watches(old(lib.authors), lib.authors[ranked[0]], {ranked[0]} + Among(ranked, |ranked|))
  {
    ghost var before := lib.Current();
    ok := true;
    assert Among(ranked, 1) == {};
    WatchesOne(lib.authors, ranked[0]);
    for n := 1 to |ranked|
      invariant Gathered(before, lib.Current(), user, ranked, n)
      invariant forall k :: 1 <= k < n ==> !Credited(before.contributors, ranked[k])
    {
      ok := MergeNext(lib, user, ranked, n, dominant, before);
      if !ok {
        return;
      }
    }
  }

  // The first n of the ranking have been merged.
  ghost predicate Gathered(t: Shelf, m: Shelf, user: UserId, ranked: seq<AuthorId>, n: nat)
    requires 1 <= n <= |ranked|
  {
    Absorbed(t, m, user, ranked[0], Among(ranked, n))
    && Watches(t.authors, m.authors[ranked[0]], {ranked[0]} + Among(ranked, n))
  }

  method MergeNext(
      lib: Library, user: UserId, ranked: seq<AuthorId>, n: nat, dominant: Dominant, ghost before: Shelf)
    returns (ok: bool)
    requires 1 <= n < |ranked| && Gathered(before, lib.Current(), user, ranked, n)
    requires forall k :: 0 <= k < |ranked| ==> OwnAuthor(before.authors, ranked[k], user)
    requires forall i, j :: 0 <= i < j < |ranked| ==> ranked[i] != ranked[j]
    modifies lib
    ensures ok <==> !Credited(before.contributors, ranked[n])
    ensures ok ==> Gathered(before, lib.Current(), user, ranked, n + 1)
  {
    AmongStep(ranked, n);
    ghost var m := lib.Current();
    assert ranked[n] in m.authors && m.authors[ranked[n]] == before.authors[ranked[n]];
    var merged := lib.MergeAuthors(user, ranked[0], ranked[n], dominant);
    ok := merged.Ok?;
    if ok {
      GatheredOne(before, m, user, ranked, n, dominant);
    }
  }

  lemma GatheredOne(t: Shelf, m: Shelf, user: UserId, ranked: seq<AuthorId>, n: nat, dominant: Dominant)
    requires 1 <= n < |ranked| && Gathered(t, m, user, ranked, n) && Mergeable(m, user, ranked[0], ranked[n])
    requires m.authors[ranked[n]] == t.authors[ranked[n]]
    requires forall i, j :: 0 <= i < j < |ranked| ==> ranked[i] != ranked[j]
    ensures Gathered(t, Merged(m, user, ranked[0], ranked[n], dominant), user, ranked, n + 1)
  {
    AmongStep(ranked, n);
    AbsorbOne(t, m, user, ranked[0], Among(ranked, n), ranked[n], dominant);
    WatchOne(t, m, user, ranked[0], Among(ranked, n), ranked[n], dominant);
    assert {ranked[0]} + Among(ranked, n) + {ranked[n]} == {ranked[0]} + Among(ranked, n + 1);
  }

  lemma WatchOne(
      t: Shelf, m: Shelf, user: UserId, keeper: AuthorId, losers: set<AuthorId>, loser: AuthorId, dominant: Dominant)
    requires Absorbed(t, m, user, keeper, losers) && Mergeable(m, user, keeper, loser)
    requires Watches(t.authors, m.authors[keeper], {keeper} + losers)
    ensures keeper in Merged(m, user, keeper, loser, dominant).authors
    ensures Watches(t.authors, Merged(m, user, keeper, loser, dominant).authors[keeper], {keeper} + losers + {loser})
  {
    var r := WithSeries(m, user, keeper, loser);
    WatchesOne(t.authors, loser);
    WatchesBoth(t.authors, m.authors[keeper], m.authors[loser], {keeper} + losers, {loser},
                dominant(r.works, user, keeper));
  }

  lemma AmongStep(ranked: seq<AuthorId>, n: nat)
    requires 1 <= n < |ranked| && forall i, j :: 0 <= i < j < |ranked| ==> ranked[i] != ranked[j]
    ensures Among(ranked, n + 1) == Among(ranked, n) + {ranked[n]}
    ensures ranked[n] !in Among(ranked, n) && ranked[0] != ranked[n]
  {}

  // ------------------------------------------------------------------
  // Monitoring
  // ------------------------------------------------------------------

  // The row is monitored exactly where one of these authors was, takes new items
  // exactly where one did, and has a language if several made a monitored one.
  ghost predicate Watches(authors: map<AuthorId, Author>, row: Author, from: set<AuthorId>) {
    && from <= authors.Keys
    && (row.monitored <==> exists a :: a in from && authors[a].monitored)
    && (row.newItems <==> exists a :: a in from && authors[a].newItems)
    && (row.monitored && |from| > 1 ==> row.language.Some?)
  }

  lemma WatchesOne(authors: map<AuthorId, Author>, a: AuthorId)
    requires a in authors
    ensures Watches(authors, authors[a], {a})
  {}

  // A merge unites what the two rows watched.
  lemma WatchesBoth(
      authors: map<AuthorId, Author>, s: Author, l: Author, mine: set<AuthorId>, theirs: set<AuthorId>,
      dominant: Option<string>)
    requires Watches(authors, s, mine) && Watches(authors, l, theirs)
    ensures Watches(authors, MergedAuthor(s, l, dominant), mine + theirs)
  {
    MonitoringGrows(s, l, dominant);
    assert s.monitored ==> exists a :: a in mine && a in mine + theirs && authors[a].monitored;
    assert l.monitored ==> exists a :: a in theirs && a in mine + theirs && authors[a].monitored;
    assert s.newItems ==> exists a :: a in mine && a in mine + theirs && authors[a].newItems;
    assert l.newItems ==> exists a :: a in theirs && a in mine + theirs && authors[a].newItems;
  }

  // ------------------------------------------------------------------
  // All groups
  // ------------------------------------------------------------------

  ghost function IdOf(t: Shelf, a: AuthorId, left: set<GroupKey>): AuthorId
    requires a in t.authors
  {
    if t.authors[a].key.Some? && GroupKey(t.authors[a].user, t.authors[a].key.value) in left then a else Keeper(t, a)
  }

  // The groups in `left` wait untouched; everyone else has gone to its keeper
  // by the ranking of the start.
  ghost predicate Repaired(t: Shelf, m: Shelf, left: set<GroupKey>) {
    && Sound(m) && m.contributors == t.contributors && m.works.Keys == t.works.Keys
    && (forall a :: a in m.authors <==> a in t.authors && IdOf(t, a, left) == a)
    && (forall a :: a in m.authors ==> SameRank(t.authors[a], m.authors[a]))
    && forall w :: w in t.works ==> WorkRepaired(t, m, left, w)
  }

  ghost predicate WorkRepaired(t: Shelf, m: Shelf, left: set<GroupKey>, w: WorkId)
    requires w in t.works && w in m.works
  {
    && m.works[w].user == t.works[w].user
    && m.works[w].author == (if t.works[w].author.Some? && t.works[w].author.value in t.authors
                             then Some(IdOf(t, t.works[w].author.value, left)) else t.works[w].author)
    && LinkKey(m, w) == LinkKey(t, w) && m.works[w].series.Some? == t.works[w].series.Some?
  }

  // The authors that end as this one.
  ghost function EndAs(t: Shelf, k: AuthorId, left: set<GroupKey>): set<AuthorId> {
    set a | a in t.authors && IdOf(t, a, left) == k
  }

  // Every row watches what the authors that became it did.
  ghost predicate Watching(t: Shelf, m: Shelf, left: set<GroupKey>) {
    forall k :: k in m.authors ==> Watches(t.authors, m.authors[k], EndAs(t, k, left))
  }

  lemma GroupWatches(
      t: Shelf, m: Shelf, after: Shelf, left: set<GroupKey>, g: GroupKey, keeper: AuthorId, losers: set<AuthorId>)
    requires Sound(t) && Repaired(t, m, left) && Watching(t, m, left) && g in left
    requires forall a :: a in Group(t.authors, g) ==> Keeper(t, a) == keeper
    requires Absorbed(m, after, g.user, keeper, losers) && keeper in Group(t.authors, g)
    requires losers == Group(t.authors, g) - {keeper}
    requires Watches(m.authors, after.authors[keeper], {keeper} + losers)
    ensures Watching(t, after, left - {g})
  {
    var group := Group(t.authors, g);
    assert {keeper} + losers == group;
    forall k | k in after.authors ensures Watches(t.authors, after.authors[k], EndAs(t, k, left - {g})) {
      if k == keeper {
        forall a | a in group ensures a in m.authors && m.authors[a].monitored == t.authors[a].monitored
                                      && m.authors[a].newItems == t.authors[a].newItems {
          WaitsAlone(t, m, left, g, a);
        }
        EndAsKeeper(t, left, g, keeper);
      } else {
        EndAsOther(t, left, g, keeper, k);
      }
    }
  }

  lemma WaitsAlone(t: Shelf, m: Shelf, left: set<GroupKey>, g: GroupKey, a: AuthorId)
    requires Sound(t) && Repaired(t, m, left) && Watching(t, m, left) && g in left && a in Group(t.authors, g)
    ensures a in m.authors && m.authors[a].monitored == t.authors[a].monitored
    ensures m.authors[a].newItems == t.authors[a].newItems
  {
    InGroup(t, a, g, left);
    forall b | b in t.authors && IdOf(t, b, left) == a ensures b == a {
      InGroup(t, b, g, left);
    }
    assert EndAs(t, a, left) == {a};
  }

  lemma EndAsKeeper(t: Shelf, left: set<GroupKey>, g: GroupKey, keeper: AuthorId)
    requires g in left && keeper in Group(t.authors, g)
    requires forall a :: a in Group(t.authors, g) ==> Keeper(t, a) == keeper
    ensures EndAs(t, keeper, left - {g}) == Group(t.authors, g)
  {
    forall a | a in t.authors ensures IdOf(t, a, left - {g}) == keeper <==> a in Group(t.authors, g) {
      InGroup(t, a, g, left);
    }
  }

  lemma EndAsOther(t: Shelf, left: set<GroupKey>, g: GroupKey, keeper: AuthorId, k: AuthorId)
    requires g in left && keeper in Group(t.authors, g) && k != keeper && k !in Group(t.authors, g)
    requires forall a :: a in Group(t.authors, g) ==> Keeper(t, a) == keeper
    ensures EndAs(t, k, left - {g}) == EndAs(t, k, left)
  {
    forall a | a in t.authors ensures IdOf(t, a, left - {g}) == k <==> IdOf(t, a, left) == k {
      InGroup(t, a, g, left);
    }
  }

  // Merging the groups done so far has not changed a waiting group: it has the
  // same members with the same works, so its ranking is the one of the start.
  lemma WaitingGroup(t: Shelf, m: Shelf, left: set<GroupKey>, g: GroupKey)
    requires Sound(t) && Repaired(t, m, left) && g in left
    ensures Group(m.authors, g) == Group(t.authors, g)
    ensures forall a :: a in Group(t.authors, g) ==>
              WorkCount(m, a) == WorkCount(t, a) && LegacyKeys(m, a) == LegacyKeys(t, a)
  {
    forall a ensures a in Group(m.authors, g) <==> a in Group(t.authors, g) {
      if a in t.authors { assert a in Group(t.authors, g) ==> IdOf(t, a, left) == a; }
      if a in m.authors { assert SameRank(t.authors[a], m.authors[a]); }
    }
    forall a | a in Group(t.authors, g) ensures WorkCount(m, a) == WorkCount(t, a)
        && LegacyKeys(m, a) == LegacyKeys(t, a)
    {
      SameWorks(t, m, left, g, a);
    }
  }

  lemma SameWorks(t: Shelf, m: Shelf, left: set<GroupKey>, g: GroupKey, a: AuthorId)
    requires Sound(t) && Repaired(t, m, left) && g in left && a in Group(t.authors, g)
    ensures WorksOf(m.works, g.user, a) == WorksOf(t.works, g.user, a)
  {
    forall w | w in t.works ensures w in WorksOf(m.works, g.user, a) <==> w in WorksOf(t.works, g.user, a) {
      assert WorkRepaired(t, m, left, w);
    }
  }

  lemma SameRanking(t: Shelf, m: Shelf, left: set<GroupKey>, g: GroupKey, ranked: seq<AuthorId>)
    requires Sound(t) && Repaired(t, m, left) && g in left && ranked != []
    requires ranked[0] in Group(m.authors, g) && forall a :: a in Group(m.authors, g) ==> RanksBefore(m, ranked[0], a)
    ensures forall a :: a in Group(t.authors, g) ==> Keeper(t, a) == ranked[0]
  {
    WaitingGroup(t, m, left, g);
    forall a | a in Group(t.authors, g) ensures Keeper(t, a) == ranked[0] {
      KeeperIsBest(t, a, ranked[0]);
      assert RanksBefore(m, ranked[0], Keeper(t, a));
    }
  }

  lemma GroupDone(
      t: Shelf, m: Shelf, after: Shelf, left: set<GroupKey>, g: GroupKey, keeper: AuthorId, losers: set<AuthorId>)
    requires Sound(t) && Repaired(t, m, left) && g in left
    requires forall a :: a in Group(t.authors, g) ==> Keeper(t, a) == keeper
    requires Absorbed(m, after, g.user, keeper, losers) && keeper in Group(t.authors, g)
    requires losers == Group(t.authors, g) - {keeper}
    ensures Repaired(t, after, left - {g})
  {
    forall a | a in t.authors ensures a in after.authors <==> IdOf(t, a, left - {g}) == a {
      InGroup(t, a, g, left);
    }
    forall w | w in t.works ensures WorkRepaired(t, after, left - {g}, w) {
      assert WorkRepaired(t, m, left, w) && WorkAbsorbed(m, after, keeper, losers, w);
      WorkDone(t, m, after, left, g, keeper, losers, w);
    }
  }

  lemma InGroup(t: Shelf, a: AuthorId, g: GroupKey, left: set<GroupKey>)
    requires a in t.authors && g in left
    ensures a in Group(t.authors, g) ==> IdOf(t, a, left) == a && IdOf(t, a, left - {g}) == Keeper(t, a)
    ensures a !in Group(t.authors, g) ==>
              IdOf(t, a, left - {g}) == IdOf(t, a, left) && IdOf(t, a, left) !in Group(t.authors, g)
  {}

  lemma WorkDone(
      t: Shelf, m: Shelf, after: Shelf, left: set<GroupKey>, g: GroupKey, keeper: AuthorId, losers: set<AuthorId>,
      w: WorkId)
    requires g in left && losers == Group(t.authors, g) - {keeper} && keeper in Group(t.authors, g)
    requires forall a :: a in Group(t.authors, g) ==> Keeper(t, a) == keeper
    requires w in t.works && w in m.works && w in after.works && Linked(t)
    requires WorkRepaired(t, m, left, w) && WorkAbsorbed(m, after, keeper, losers, w)
    ensures WorkRepaired(t, after, left - {g}, w)
  {
    if t.works[w].author.Some? {
      assert OwnAuthor(t.authors, t.works[w].author.value, t.works[w].user);
      InGroup(t, t.works[w].author.value, g, left);
    }
  }

  lemma {:induction false} AloneIsKeeper(t: Shelf, a: AuthorId)
    requires a in t.authors && t.authors[a].key.Some?
    requires GroupKey(t.authors[a].user, t.authors[a].key.value) !in Duplicates(t.authors)
    ensures Keeper(t, a) == a
  {
    var g := GroupKey(t.authors[a].user, t.authors[a].key.value);
    var group, k := Group(t.authors, g), Keeper(t, a);
    assert a in group && k in group && g in GroupsOf(t.authors);
    if k != a {
      Smaller({a, k}, group);
    }
  }

  lemma NothingDoneYet(t: Shelf)
    requires Sound(t)
    ensures Repaired(t, t, Duplicates(t.authors)) && Watching(t, t, Duplicates(t.authors))
  {
    forall a | a in t.authors ensures IdOf(t, a, Duplicates(t.authors)) == a {
      if t.authors[a].key.Some?
         && GroupKey(t.authors[a].user, t.authors[a].key.value) !in Duplicates(t.authors) {
        AloneIsKeeper(t, a);
      }
    }
    forall w | w in t.works ensures WorkRepaired(t, t, Duplicates(t.authors), w) {}
    forall k | k in t.authors ensures Watches(t.authors, t.authors[k], EndAs(t, k, Duplicates(t.authors))) {
      assert EndAs(t, k, Duplicates(t.authors)) == {k};
      WatchesOne(t.authors, k);
    }
  }

  lemma AllDone(t: Shelf, m: Shelf)
    requires Repaired(t, m, {})
    ensures IndexBuilds(m.authors)
    ensures m.authors.Keys == set a | a in t.authors && Keeper(t, a) == a
  {
    forall a, b | a in m.authors && b in m.authors && a != b && m.authors[a].key.Some?
      ensures !(m.authors[a].user == m.authors[b].user && m.authors[a].key == m.authors[b].key)
    {
      assert IdOf(t, a, {}) == a && IdOf(t, b, {}) == b;
      if m.authors[a].user == m.authors[b].user && m.authors[a].key == m.authors[b].key {
        KeeperIsBest(t, a, b);
      }
    }
  }

  // A loser that a contributor row still credits: it stops the repair.
  ghost predicate Blocked(t: Shelf) {
    exists a :: a in t.authors && Keeper(t, a) != a && Credited(t.contributors, a)
  }

  // One UPDATE under the unique index, where it is there.
  predicate Refused(authors: map<AuthorId, Author>, indexed: bool, a: AuthorId, row: Author) {
    indexed && row.key.Some?
    && exists b :: b in authors && b != a && authors[b].user == row.user && authors[b].key == row.key
  }

  // A refused key is one that two authors would have in the end.
  lemma RefusedMeansTwins(
      authors: map<AuthorId, Author>, canonicalOf: string -> string, done: set<AuthorId>, a: AuthorId)
    requires a in authors
    requires Refused(KeyedSome(authors, canonicalOf, done), true, a, KeyedOne(authors[a], canonicalOf))
    ensures !IndexBuilds(KeyedSome(authors, canonicalOf, authors.Keys))
  {
    var now, all := KeyedSome(authors, canonicalOf, done), KeyedSome(authors, canonicalOf, authors.Keys);
    var row := KeyedOne(authors[a], canonicalOf);
    var b :| b in now && b != a && now[b].user == row.user && now[b].key == row.key;
    assert all[b].key == now[b].key && all[a] == row;
  }

  // The loop over the unkeyed rows; under the index it fails exactly when two
  // authors would end with one key.
  method KeyAuthors(lib: Library, indexed: bool, canonicalOf: string -> string) returns (ok: bool)
    requires indexed ==> IndexBuilds(lib.authors)
    modifies lib`authors
    ensures ok <==> (indexed ==> IndexBuilds(Keyed(old(lib.Current()), canonicalOf).authors))
    ensures ok ==> lib.authors == Keyed(old(lib.Current()), canonicalOf).authors
  {
    ghost var before := lib.authors;
    var left := lib.authors.Keys;
    ok := true;
    assert KeyedSome(before, canonicalOf, {}) == before;
    while left != {}
      invariant left <= before.Keys && lib.authors == KeyedSome(before, canonicalOf, before.Keys - left)
      invariant indexed ==> IndexBuilds(lib.authors)
      decreases left
    {
      ghost var some := AnElement(left);
      var a :| a in left;
      ghost var done := before.Keys - left;
      var row := KeyedOne(lib.authors[a], canonicalOf);
      if Refused(lib.authors, indexed, a, row) {
        RefusedMeansTwins(before, canonicalOf, done, a);
        return false;
      }
      assert before.Keys - (left - {a}) == done + {a};
      KeyedNext(before, canonicalOf, done, a);
      lib.authors := lib.authors[a := row];
      left := left - {a};
    }
    assert before.Keys - {} == before.Keys;
  }

  lemma KeyedNext(authors: map<AuthorId, Author>, canonicalOf: string -> string, done: set<AuthorId>, a: AuthorId)
    requires a in authors && a !in done
    ensures KeyedSome(authors, canonicalOf, done + {a})
         == KeyedSome(authors, canonicalOf, done)[a := KeyedOne(authors[a], canonicalOf)]
  {}

  // One transaction: on success everyone has gone to the keeper that the
  // ranking of the keyed table names, and the index builds. It succeeds unless
  // some loser is still credited on a work, or, where the index is there
  // already, two authors would get one key; then nothing changes.
  method RepairAuthors(
      lib: Library, complete: bool, indexed: bool, canonicalOf: string -> string, dominant: Dominant)
    returns (ok: bool, complete': bool)
    requires Sound(lib.Current()) && (indexed ==> IndexBuilds(lib.authors))
    modifies lib
    ensures complete ==> ok && complete' && lib.Current() == old(lib.Current())
    ensures !complete ==>
              && complete' == ok
              && (ok <==> CanRepair(old(lib.Current()), indexed, canonicalOf))
              && (!ok ==> lib.Current() == old(lib.Current()))
              && (ok ==> Repaired(Keyed(old(lib.Current()), canonicalOf), lib.Current(), {})
                         && Watching(Keyed(old(lib.Current()), canonicalOf), lib.Current(), {})
                         && IndexBuilds(lib.authors))
  {
    if complete {
      return true, true;
    }
    var before := lib.Current();
    KeyedIsSound(before, canonicalOf);
    ghost var t := Keyed(before, canonicalOf);
    ok := KeyAuthors(lib, indexed, canonicalOf);
    if ok {
      NothingDoneYet(t);
      ok := MergeGroups(lib, dominant, t);
    }
    if !ok {
      lib.authors, lib.works, lib.series, lib.rosters, lib.contributors :=
        before.authors, before.works, before.series, before.rosters, before.contributors;
      return false, false;
    }
    AllDone(t, lib.Current());
    complete' := true;
  }

  ghost predicate CanRepair(t: Shelf, indexed: bool, canonicalOf: string -> string) {
    (indexed ==> IndexBuilds(Keyed(t, canonicalOf).authors)) && !Blocked(Keyed(t, canonicalOf))
  }

  // `for (user_id, key) in &dupes`.
  method MergeGroups(lib: Library, dominant: Dominant, ghost t: Shelf) returns (ok: bool)
    requires Sound(t) && lib.Current() == t && Repaired(t, t, Duplicates(t.authors))
    requires Watching(t, t, Duplicates(t.authors))
    modifies lib
    ensures ok <==> !Blocked(t)
    ensures ok ==> Repaired(t, lib.Current(), {}) && Watching(t, lib.Current(), {})
  {
    var left := Duplicates(lib.authors);
    ghost var first := left;
    while left != {}
      invariant left <= first && Repaired(t, lib.Current(), left) && Watching(t, lib.Current(), left)
      invariant forall a :: a in t.authors && IdOf(t, a, left) != a ==> !Credited(t.contributors, a)
      decreases left
    {
      ghost var some := AnElement(left);
      var g :| g in left;
      ok := MergeOneGroup(lib, g, dominant, t, left);
      if !ok {
        return;
      }
      left := left - {g};
    }
    ok := true;
  }

  // The ranking query of one group, and its merges.
  method MergeOneGroup(lib: Library, g: GroupKey, dominant: Dominant, ghost t: Shelf, ghost left: set<GroupKey>)
    returns (ok: bool)
    requires Sound(t) && Repaired(t, lib.Current(), left) && g in left && left <= Duplicates(t.authors)
    requires Watching(t, lib.Current(), left)
    requires forall a :: a in t.authors && IdOf(t, a, left) != a ==> !Credited(t.contributors, a)
    modifies lib
    ensures !ok ==> Blocked(t)
    ensures ok ==> Repaired(t, lib.Current(), left - {g}) && Watching(t, lib.Current(), left - {g})
    ensures ok ==> forall a :: a in t.authors && IdOf(t, a, left - {g}) != a ==> !Credited(t.contributors, a)
  {
    ghost var m := lib.Current();
    WaitingGroup(t, m, left, g);
    var ranked := InOrder(Group(lib.authors, g), ByRank(lib.Current()));
    RankedGroup(t, m, left, g, ranked);
    ok := MergeGroup(lib, g.user, ranked, dominant);
    if ok {
      GroupDone(t, m, lib.Current(), left, g, ranked[0], Among(ranked, |ranked|));
      GroupWatches(t, m, lib.Current(), left, g, ranked[0], Among(ranked, |ranked|));
      forall a | a in t.authors && IdOf(t, a, left - {g}) != a ensures !Credited(t.contributors, a) {
        InGroup(t, a, g, left);
      }
    } else {
      ghost var k :| 1 <= k < |ranked| && Credited(m.contributors, ranked[k]);
      assert ranked[k] in Group(t.authors, g) && Keeper(t, ranked[k]) == ranked[0];
    }
  }

  lemma RankedGroup(t: Shelf, m: Shelf, left: set<GroupKey>, g: GroupKey, ranked: seq<AuthorId>)
    requires Sound(t) && Repaired(t, m, left) && g in left && left <= Duplicates(t.authors)
    requires ranked == InOrder(Group(m.authors, g), ByRank(m))
    ensures ranked != []
    ensures forall k :: 0 <= k < |ranked| ==>
            OwnAuthor(m.authors, ranked[k], g.user) && ranked[k] in Group(t.authors, g)
    ensures ranked[0] in Group(t.authors, g) && forall a :: a in Group(t.authors, g) ==> Keeper(t, a) == ranked[0]
    ensures Among(ranked, |ranked|) == Group(t.authors, g) - {ranked[0]}
    ensures forall a :: a in Group(t.authors, g) && a != ranked[0] ==> exists k :: 1 <= k < |ranked| && ranked[k] == a
  {
    WaitingGroup(t, m, left, g);
    RankedIsGroup(m, g, ranked);
    FirstIsBest(m, g, ranked);
    SameRanking(t, m, left, g, ranked);
  }

  lemma RankedIsGroup(m: Shelf, g: GroupKey, ranked: seq<AuthorId>)
    requires ranked == InOrder(Group(m.authors, g), ByRank(m)) && |Group(m.authors, g)| > 1
    ensures ranked != [] && ranked[0] in Group(m.authors, g)
    ensures forall k :: 0 <= k < |ranked| ==>
            OwnAuthor(m.authors, ranked[k], g.user) && ranked[k] in Group(m.authors, g)
    ensures Among(ranked, |ranked|) == Group(m.authors, g) - {ranked[0]}
    ensures forall a :: a in Group(m.authors, g) && a != ranked[0] ==> exists k :: 1 <= k < |ranked| && ranked[k] == a
  {
    assert forall k :: 0 <= k < |ranked| ==> ranked[k] in ranked;
    assert forall a :: a in Group(m.authors, g) ==> exists k :: 0 <= k < |ranked| && ranked[k] == a;
  }

  lemma FirstIsBest(m: Shelf, g: GroupKey, ranked: seq<AuthorId>)
    requires ranked == InOrder(Group(m.authors, g), ByRank(m)) && ranked != []
    ensures forall a :: a in Group(m.authors, g) ==> RanksBefore(m, ranked[0], a)
  {
    forall a | a in Group(m.authors, g) ensures RanksBefore(m, ranked[0], a) {
      var k :| 0 <= k < |ranked| && ranked[k] == a;
      assert k == 0 || ByRank(m)(ranked[0], ranked[k]);
    }
  }
}
