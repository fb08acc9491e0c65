// The whole `merge_authors_tx`: the shelf of AuthorMerge and the link state of
// MergeFold in one transaction, with the final DELETE
// (crates/livrarr-db/src/sqlite_author.rs:112-385;
// crates/livrarr-db/src/sqlite_author_link.rs:2694-2864).
module AuthorUnion {
  import opened Basics
  import opened AuthorMerge
  import opened LinkProgress
  import opened LinkTables
  import opened LinkStore
  import opened AuthorNames
  import opened MergeFold
  import opened CandidateFold
  import opened RouteKeys

  // The unique keys of the link tables.
  ghost predicate LinksValid(store: LinkStore)
    reads store, store.names
  {
    LinkTables.Valid(store.Current()) && UniqueStaging(store.staging) && UniqueNames(store.names.rows)
  }

  // Staged names are keyed by author and go with it.
  function WithoutNames(staged: seq<StagedName>, author: AuthorId): (r: seq<StagedName>)
    ensures forall s :: s in r <==> s in staged && s.author != author
  {
    if staged == [] then []
    else
      var front, last := WithoutNames(staged[..|staged| - 1], author), staged[|staged| - 1];
      assert forall s :: s in staged <==> s in staged[..|staged| - 1] || s == last;
      if last.author == author then front else front + [last]
  }

  // The link tables after the merge and the delete.
  twostate predicate LinksMerged(store: LinkStore, user: UserId, survivor: AuthorId, loser: AuthorId, now: Time)
    requires LinkTables.Valid(old(store.Current())) && UniqueNames(old(store.names.rows))
    reads store, store.names, store.leases
  {
    var rows := Adopted(old(store.leases.rows), survivor, user, now);
    && store.Current() == FoldedTables(old(store.Current()), user, survivor, loser, GenerationOf(rows, survivor))
    && store.staging == FoldedStaging(old(store.staging), user, survivor, loser)
    && store.names.rows == FoldedNames(old(store.names.rows), survivor, NamesOf(old(store.names.rows), user, loser))
    && store.stagedNames == WithoutNames(old(store.stagedNames), loser)
    && store.leases.rows == RederiveRows(rows, store.Current(), user, survivor) - {loser}
  }

  // Both halves commit together or not at all: the merge is refused exactly
  // where the shelf refuses it, and then no link row changes either.
  method MergeAuthors(
      lib: Library, store: LinkStore, user: UserId, survivor: AuthorId, loser: AuthorId, dominant: Dominant, now: Time)
    returns (r: Result<MergeReport, AuthorMerge.Error>)
    requires Sound(lib.Current()) && LinksValid(store)
    modifies lib, store`routes, store`candidates, store`staging, store`stagedNames, store.names`rows,
             store.leases`rows
    ensures LinksValid(store)
    ensures r.Ok? <==> Mergeable(old(lib.Current()), user, survivor, loser) && !Credited(old(lib.contributors), loser)
    ensures r.Err? ==>
              && lib.Current() == old(lib.Current()) && store.Current() == old(store.Current())
              && store.staging == old(store.staging) && store.stagedNames == old(store.stagedNames)
              && store.names.rows == old(store.names.rows) && store.leases.rows == old(store.leases.rows)
    ensures r.Ok? ==> lib.Current() == AuthorMerge.Merged(old(lib.Current()), user, survivor, loser, dominant)
    ensures r.Ok? ==> LinksMerged(store, user, survivor, loser, now)
  {
    r := lib.MergeAuthors(user, survivor, loser, dominant);
    if r.Ok? {
      MergeLinks(store, user, survivor, loser, now);
    }
  }

  method MergeLinks(store: LinkStore, user: UserId, survivor: AuthorId, loser: AuthorId, now: Time)
    requires LinksValid(store) && survivor != loser
    modifies store`routes, store`candidates, store`staging, store`stagedNames, store.names`rows, store.leases`rows
    ensures LinksValid(store) && LinksMerged(store, user, survivor, loser, now)
  {
    FoldLinkState(store, user, survivor, loser, now);
    store.stagedNames := WithoutNames(store.stagedNames, loser);
    store.leases.DeleteAuthor(loser);
  }

  // When the author row goes, its routes, questions, names and staged values
  // have all left it: the cascade has nothing of them to delete.
  lemma NothingLeftToCascade(
      t: Tables, staging: seq<Staged>, names: Variants, user: UserId, survivor: AuthorId, loser: AuthorId,
      generation: int)
    requires LinkTables.Valid(t) && UniqueStaging(staging) && UniqueNames(names) && survivor != loser
    ensures var after := FoldedTables(t, user, survivor, loser, generation);
            && (forall i :: i in after.routes ==> !(after.routes[i].user == user && after.routes[i].author == loser))
            && forall i :: i in after.candidates ==> !IsOf(after.candidates[i], user, loser)
    ensures forall p: Provider :: StagedAt(FoldedStaging(staging, user, survivor, loser), user, loser, p) == None
    ensures forall key: NameKey :: key.user == user && key.author == loser ==>
              NameAt(FoldedNames(names, survivor, NamesOf(names, user, loser)), key) == None
  {
    var after := FoldedTables(t, user, survivor, loser, generation);
    forall i | i in after.candidates ensures !IsOf(after.candidates[i], user, loser) {
      QuestionsTravel(t.candidates, user, survivor, loser, generation, i);
    }
    forall p: Provider ensures StagedAt(FoldedStaging(staging, user, survivor, loser), user, loser, p) == None {
      StagedSurvivorWins(staging, user, survivor, loser, user, loser, p);
    }
    forall key: NameKey | key.user == user && key.author == loser
      ensures NameAt(FoldedNames(names, survivor, NamesOf(names, user, loser)), key) == None
    {
      NamesAreUnited(names, user, survivor, loser, key);
    }
  }
}
