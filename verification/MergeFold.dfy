// `fold_author_link_state_tx`: a loser's link state moves onto the survivor
// inside the merge transaction
// (crates/livrarr-db/src/sqlite_author_link.rs:2694-2864). Every statement
// keeps the unique key of the table it writes.
module MergeFold {
  import opened Basics
  import opened RouteKeys
  import opened Sorting
  import opened LinkProgress
  import opened LinkTables
  import opened CandidateFold
  import opened LinkStore
  import opened AuthorNames

  // ------------------------------------------------------------------
  // Routes
  // ------------------------------------------------------------------

  // Every route of the loser moves as it is: none is lost, none is revived.
  lemma RoutesMove(t: Tables, user: UserId, survivor: AuthorId, loser: AuthorId, id: RouteId)
    requires Valid(t) && survivor != loser
    ensures var after := Move(t.routes, user, survivor, loser);
            && UniqueRoutes(after) && after.Keys == t.routes.Keys
            && (id in t.routes ==>
                  after[id] == t.routes[id].(author := after[id].author)
                  && after[id].author == if t.routes[id].user == user && t.routes[id].author == loser
                                         then survivor else t.routes[id].author)
  {}

  // ------------------------------------------------------------------
  // Staged legacy values
  // ------------------------------------------------------------------

  // UNIQUE(user_id, author_id, provider).
  ghost predicate UniqueStaging(staging: seq<Staged>) {
    forall i, j :: 0 <= i < j < |staging| ==>
      !(staging[i].user == staging[j].user && staging[i].author == staging[j].author
        && staging[i].provider == staging[j].provider)
  }

  predicate IsFor(s: Staged, user: UserId, author: AuthorId, provider: Provider) {
    s.user == user && s.author == author && s.provider == provider
  }

  function StagedAt(staging: seq<Staged>, user: UserId, author: AuthorId, provider: Provider): (r: Option<Staged>)
    ensures r.Some? ==> r.value in staging && IsFor(r.value, user, author, provider)
    ensures r.None? ==> forall s :: s in staging ==> !IsFor(s, user, author, provider)
  {
    if staging == [] then None
    else if IsFor(staging[|staging| - 1], user, author, provider) then Some(staging[|staging| - 1])
    else StagedAt(staging[..|staging| - 1], user, author, provider)
  }

  // The DELETE: the loser's rows whose provider the survivor has staged. The
  // subquery reads the table as it was before the statement.
  function DropColliding(
      staging: seq<Staged>, all: seq<Staged>, user: UserId, survivor: AuthorId, loser: AuthorId): seq<Staged>
  {
    if staging == [] then []
    else
      var front, last := DropColliding(staging[..|staging| - 1], all, user, survivor, loser), staging[|staging| - 1];
      if last.user == user && last.author == loser && StagedAt(all, user, survivor, last.provider).Some?
      then front else front + [last]
  }

  // The UPDATE of the rest.
  function Restage(staging: seq<Staged>, user: UserId, survivor: AuthorId, loser: AuthorId): (r: seq<Staged>)
    ensures |r| == |staging|
    ensures forall i :: 0 <= i < |r| ==>
              r[i] == if staging[i].user == user && staging[i].author == loser
                      then staging[i].(author := survivor) else staging[i]
  {
    seq(|staging|, i requires 0 <= i < |staging| =>
      if staging[i].user == user && staging[i].author == loser then staging[i].(author := survivor) else staging[i])
  }

  function FoldedStaging(staging: seq<Staged>, user: UserId, survivor: AuthorId, loser: AuthorId): seq<Staged> {
    Restage(DropColliding(staging, staging, user, survivor, loser), user, survivor, loser)
  }

  lemma {:induction false} DropKeeps(
      staging: seq<Staged>, all: seq<Staged>, user: UserId, survivor: AuthorId, loser: AuthorId)
    requires UniqueStaging(staging)
    ensures var kept := DropColliding(staging, all, user, survivor, loser);
            && UniqueStaging(kept)
            && forall s :: s in kept <==>
                 s in staging
                 && !(s.user == user && s.author == loser && StagedAt(all, user, survivor, s.provider).Some?)
  {
    if staging != [] {
      var front, last := staging[..|staging| - 1], staging[|staging| - 1];
      DropKeeps(front, all, user, survivor, loser);
      assert forall s :: s in staging <==> s in front || s == last;
    }
  }

  lemma OneStaged(staging: seq<Staged>, s: Staged, t: Staged)
    requires UniqueStaging(staging) && s in staging && t in staging && IsFor(s, t.user, t.author, t.provider)
    ensures s == t
  {
    var i :| 0 <= i < |staging| && staging[i] == s;
    var j :| 0 <= j < |staging| && staging[j] == t;
  }

  // Neither statement breaks the key.
  lemma StagingStaysUnique(staging: seq<Staged>, user: UserId, survivor: AuthorId, loser: AuthorId)
    requires UniqueStaging(staging) && survivor != loser
    ensures UniqueStaging(DropColliding(staging, staging, user, survivor, loser))
    ensures UniqueStaging(FoldedStaging(staging, user, survivor, loser))
  {
    DropKeeps(staging, staging, user, survivor, loser);
    var kept, after := DropColliding(staging, staging, user, survivor, loser), FoldedStaging(staging, user, survivor,
        loser);
    forall i, j | 0 <= i < j < |after|
      ensures !(after[i].user == after[j].user && after[i].author == after[j].author
                && after[i].provider == after[j].provider)
    {
      assert kept[i] in staging && kept[j] in staging;
      assert kept[i] in kept && kept[j] in kept;
    }
  }

  // One value per provider, the survivor's own first; the loser keeps none and
  // nobody else's changes.
  lemma StagedSurvivorWins(
      staging: seq<Staged>, user: UserId, survivor: AuthorId, loser: AuthorId, u: UserId, a: AuthorId, p: Provider)
    requires UniqueStaging(staging) && survivor != loser
    ensures StagedAt(FoldedStaging(staging, user, survivor, loser), u, a, p)
         == if u != user then StagedAt(staging, u, a, p)
            else if a == loser then None
            else if a == survivor && StagedAt(staging, user, survivor, p).None?
                    && StagedAt(staging, user, loser, p).Some?
            then Some(StagedAt(staging, user, loser, p).value.(author := survivor))
            else StagedAt(staging, u, a, p)
  {
    var kept, after := DropColliding(staging, staging, user, survivor, loser), FoldedStaging(staging, user, survivor,
        loser);
    StagingStaysUnique(staging, user, survivor, loser);
    DropKeeps(staging, staging, user, survivor, loser);
    var now := StagedAt(after, u, a, p);
    if now.Some? {
      var i :| 0 <= i < |after| && after[i] == now.value;
      assert kept[i] in kept && kept[i] in staging;
      var was := StagedAt(staging, u, kept[i].author, p);
      OneStaged(staging, kept[i], was.value);
    }
    var before := StagedAt(staging, u, a, p);
    if before.Some? && !(u == user && a == loser) {
      Lands(kept, user, survivor, loser, before.value);
      OneStaged(after, before.value, now.value);
    }
    var theirs := StagedAt(staging, user, loser, p);
    if u == user && a == survivor && before.None? && theirs.Some? {
      Lands(kept, user, survivor, loser, theirs.value);
      OneStaged(after, theirs.value.(author := survivor), now.value);
    }
  }

  lemma Lands(kept: seq<Staged>, user: UserId, survivor: AuthorId, loser: AuthorId, s: Staged)
    requires s in kept
    ensures (if s.user == user && s.author == loser then s.(author := survivor) else s)
              in Restage(kept, user, survivor, loser)
  {
    var i :| 0 <= i < |kept| && kept[i] == s;
    assert Restage(kept, user, survivor, loser)[i]
      == if s.user == user && s.author == loser then s.(author := survivor) else s;
  }

  // ------------------------------------------------------------------
  // The transaction body
  // ------------------------------------------------------------------

  method FoldCandidates(store: LinkStore, user: UserId, survivor: AuthorId, loser: AuthorId, generation: int)
    requires UniqueQuestions(store.candidates) && survivor != loser
    modifies store`candidates
    ensures UniqueQuestions(store.candidates)
    ensures store.candidates
         == FoldedCandidates(old(store.candidates), survivor, generation, CandidatesOf(old(store.candidates), user,
             loser))
    ensures store.candidates.Keys <= old(store.candidates).Keys
  {
    var ids := CandidatesOf(store.candidates, user, loser);
    CandidatesListed(store.candidates, user, survivor, loser);
    FoldEach(store, survivor, generation, ids);
  }

  method FoldEach(store: LinkStore, survivor: AuthorId, generation: int, ids: seq<CandidateId>)
    requires UniqueQuestions(store.candidates) && Listed(store.candidates, ids, survivor)
    modifies store`candidates
    ensures UniqueQuestions(store.candidates)
    ensures store.candidates == FoldedCandidates(old(store.candidates), survivor, generation, ids)
    ensures store.candidates.Keys <= old(store.candidates).Keys
  {
    ghost var before := store.candidates;
    for n := 0 to |ids|
      invariant UniqueQuestions(store.candidates)
      invariant store.candidates == FoldedCandidates(before, survivor, generation, ids[..n])
    {
      OthersWait(before, survivor, generation, ids, n, ids[n]);
      FoldedOneMore(before, survivor, generation, ids, n);
      FoldCandidate(store, survivor, generation, ids[n]);
    }
    assert ids[..|ids|] == ids;
  }

  method FoldCandidate(store: LinkStore, survivor: AuthorId, generation: int, id: CandidateId)
    requires UniqueQuestions(store.candidates) && id in store.candidates
    modifies store`candidates
    ensures store.candidates == FoldedCandidate(old(store.candidates), survivor, generation, id)
    ensures UniqueQuestions(store.candidates)
  {
    FoldedCandidateIsUnique(store.candidates, survivor, generation, id);
    var target := TargetOf(store.candidates[id], survivor, generation);
    if FindCandidate(store.candidates, target).Some? {
      store.candidates := store.candidates - {id};
    } else {
      store.candidates := store.candidates[id := store.candidates[id].(question := target)];
    }
  }

  // The survivor's progress row after `ensure_progress_tx(AuthorAdopted)`.
  function Adopted(rows: Rows, survivor: AuthorId, user: UserId, now: Time): Rows {
    rows[survivor := if survivor in rows then rows[survivor].Ensured(AuthorAdopted, now)
                     else NewRow(user, AuthorAdopted, now)]
  }

  // The statements on routes and staged values.
  method MoveRows(store: LinkStore, user: UserId, survivor: AuthorId, loser: AuthorId)
    requires Valid(store.Current()) && UniqueStaging(store.staging) && survivor != loser
    modifies store`routes, store`staging
    ensures UniqueRoutes(store.routes) && UniqueStaging(store.staging)
    ensures store.routes == Move(old(store.routes), user, survivor, loser)
    ensures store.staging == FoldedStaging(old(store.staging), user, survivor, loser)
  {
    RoutesMove(store.Current(), user, survivor, loser, 0);
    store.routes := Move(store.routes, user, survivor, loser);
    StagingStaysUnique(store.staging, user, survivor, loser);
    store.staging := DropColliding(store.staging, store.staging, user, survivor, loser);
    assert UniqueStaging(store.staging);
    store.staging := Restage(store.staging, user, survivor, loser);
  }

  // The survivor's progress row, the loser's questions, the derived state.
  method AdoptQuestions(store: LinkStore, user: UserId, survivor: AuthorId, loser: AuthorId, now: Time)
    requires UniqueQuestions(store.candidates) && survivor != loser
    modifies store`candidates, store.leases`rows
    ensures UniqueQuestions(store.candidates) && store.candidates.Keys <= old(store.candidates).Keys
    ensures var rows := Adopted(old(store.leases.rows), survivor, user, now);
            && store.candidates == FoldedCandidates(old(store.candidates), survivor, GenerationOf(rows, survivor),
                                                    CandidatesOf(old(store.candidates), user, loser))
            && store.leases.rows == RederiveRows(rows, store.Current(), user, survivor)
  {
    store.leases.EnsureProgress(survivor, user, AuthorAdopted, now);
    FoldCandidates(store, user, survivor, loser, GenerationOf(store.leases.rows, survivor));
    store.Rederive(user, survivor);
  }

  method FoldLinkState(
      store: LinkStore, user: UserId, survivor: AuthorId, loser: AuthorId, now: Time)
    requires Valid(store.Current()) && UniqueStaging(store.staging) && UniqueNames(store.names.rows)
            && survivor != loser
    modifies store`routes, store`candidates, store`staging, store.names`rows, store.leases`rows
    ensures Valid(store.Current()) && UniqueStaging(store.staging) && UniqueNames(store.names.rows)
    ensures store.staging == FoldedStaging(old(store.staging), user, survivor, loser)
    ensures store.names.rows
         == FoldedNames(old(store.names.rows), survivor, NamesOf(old(store.names.rows), user, loser))
    ensures var rows := Adopted(old(store.leases.rows), survivor, user, now);
            && store.Current() == FoldedTables(old(store.Current()), user, survivor, loser, GenerationOf(rows,
                survivor))
            && store.leases.rows == RederiveRows(rows, store.Current(), user, survivor)
  {
    MoveRows(store, user, survivor, loser);
    store.names.FoldNames(user, survivor, loser);
    AdoptQuestions(store, user, survivor, loser, now);
  }
}
