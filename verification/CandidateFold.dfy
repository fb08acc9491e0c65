// What a merge does to review candidates
// (crates/livrarr-db/src/sqlite_author_link.rs:2807-2860): each row of the loser
// is restamped onto the survivor in id order, or deleted where its question is
// taken. The row that keeps a question is described exactly.
module CandidateFold {
  import opened Basics
  import opened LinkProgress
  import opened LinkTables

  ghost predicate Listed(rows: Candidates, ids: seq<CandidateId>, survivor: AuthorId) {
    && (forall k :: 0 <= k < |ids| ==> ids[k] in rows && rows[ids[k]].question.author != survivor)
    && forall i, j :: 0 <= i < j < |ids| ==> ids[i] < ids[j]
  }

  lemma CandidatesListed(rows: Candidates, user: UserId, survivor: AuthorId, loser: AuthorId)
    requires survivor != loser
    ensures Listed(rows, CandidatesOf(rows, user, loser), survivor)
  {
    var ids := CandidatesOf(rows, user, loser);
    assert forall k :: 0 <= k < |ids| ==> ids[k] in ids;
  }

  lemma FoldedOneMore(rows: Candidates, survivor: AuthorId, generation: int, ids: seq<CandidateId>, n: nat)
    requires UniqueQuestions(rows) && n < |ids|
    ensures FoldedCandidates(rows, survivor, generation, ids[..n + 1])
         == FoldedCandidate(FoldedCandidates(rows, survivor, generation, ids[..n]), survivor, generation, ids[n])
  {
    assert ids[..n + 1][..n] == ids[..n];
  }

  // After the first n turns, a row whose turn has not come is as it was.
  lemma {:induction false} OthersWait(
      rows: Candidates, survivor: AuthorId, generation: int, ids: seq<CandidateId>, n: nat, id: CandidateId)
    requires UniqueQuestions(rows) && Listed(rows, ids, survivor) && n <= |ids|
    requires id in rows && forall k :: 0 <= k < n ==> ids[k] != id
    ensures var after := FoldedCandidates(rows, survivor, generation, ids[..n]);
            id in after && after[id] == rows[id]
  {
    if n > 0 {
      OthersWait(rows, survivor, generation, ids, n - 1, id);
      FoldedOneMore(rows, survivor, generation, ids, n - 1);
    }
  }

  // ------------------------------------------------------------------
  // The keeper of a question
  // ------------------------------------------------------------------

  // The first listed row that is restamped onto the question.
  function First(
      rows: Candidates, survivor: AuthorId, generation: int, ids: seq<CandidateId>, n: nat, q: Question):
    (r: Option<CandidateId>)
    requires n <= |ids|
    ensures r.Some? ==> r.value in rows && TargetOf(rows[r.value], survivor, generation) == q
  {
    if n == 0 then None
    else
      var front, id := First(rows, survivor, generation, ids, n - 1, q), ids[n - 1];
      if front.None? && id in rows && TargetOf(rows[id], survivor, generation) == q then Some(id) else front
  }

  // Who asks a question of the survivor afterwards: its own row if it has one,
  // else the first of the loser's rows restamped onto it.
  function Keeper(
      rows: Candidates, survivor: AuthorId, generation: int, ids: seq<CandidateId>, n: nat, q: Question):
    Option<CandidateId>
    requires UniqueQuestions(rows) && n <= |ids|
  {
    var own := FindCandidate(rows, q);
    if own.Some? then own else First(rows, survivor, generation, ids, n, q)
  }

  ghost predicate Keeps(before: Candidates, after: Candidates, keeper: Option<CandidateId>, q: Question)
    requires UniqueQuestions(after)
  {
    && FindCandidate(after, q) == keeper
    && (keeper.Some? ==> keeper.value in before && after[keeper.value] == before[keeper.value].(question := q))
  }

  lemma {:induction false} KeeperKeeps(
      rows: Candidates, survivor: AuthorId, generation: int, ids: seq<CandidateId>, n: nat, q: Question)
    requires UniqueQuestions(rows) && Listed(rows, ids, survivor) && n <= |ids| && q.author == survivor
    ensures Keeps(rows, FoldedCandidates(rows, survivor, generation, ids[..n]),
                  Keeper(rows, survivor, generation, ids, n, q), q)
  {
    if n > 0 {
      KeeperKeeps(rows, survivor, generation, ids, n - 1, q);
      OthersWait(rows, survivor, generation, ids, n - 1, ids[n - 1]);
      FoldedOneMore(rows, survivor, generation, ids, n - 1);
      var front := FoldedCandidates(rows, survivor, generation, ids[..n - 1]);
      KeeperTurn(rows, front, survivor, generation, ids, n, q);
    }
  }

  lemma KeeperTurn(
      rows: Candidates, front: Candidates, survivor: AuthorId, generation: int, ids: seq<CandidateId>, n: nat,
      q: Question)
    requires UniqueQuestions(rows) && UniqueQuestions(front) && Listed(rows, ids, survivor) && 0 < n <= |ids|
    requires q.author == survivor && ids[n - 1] in front && front[ids[n - 1]] == rows[ids[n - 1]]
    requires Keeps(rows, front, Keeper(rows, survivor, generation, ids, n - 1, q), q)
    ensures UniqueQuestions(FoldedCandidate(front, survivor, generation, ids[n - 1]))
    ensures Keeps(rows, FoldedCandidate(front, survivor, generation, ids[n - 1]),
                  Keeper(rows, survivor, generation, ids, n, q), q)
  {
    var id := ids[n - 1];
    FoldedCandidateIsUnique(front, survivor, generation, id);
    var after, target := FoldedCandidate(front, survivor, generation, id), TargetOf(rows[id], survivor, generation);
    match FindCandidate(front, q) {
      case Some(k) => assert k in after && after[k] == front[k];
      case None => if q == target { assert after[id].question == q; }
    }
  }

  // A row whose turn is over is gone or sits on its target.
  lemma {:induction false} LandsOrGoes(
      rows: Candidates, survivor: AuthorId, generation: int, ids: seq<CandidateId>, n: nat, k: nat)
    requires UniqueQuestions(rows) && Listed(rows, ids, survivor) && k < n <= |ids|
    ensures var after := FoldedCandidates(rows, survivor, generation, ids[..n]);
            ids[k] in after ==>
              after[ids[k]] == rows[ids[k]].(question := TargetOf(rows[ids[k]], survivor, generation))
  {
    OthersWait(rows, survivor, generation, ids, n - 1, ids[n - 1]);
    FoldedOneMore(rows, survivor, generation, ids, n - 1);
    if k < n - 1 {
      LandsOrGoes(rows, survivor, generation, ids, n - 1, k);
    }
  }

  // ------------------------------------------------------------------
  // The whole fold
  // ------------------------------------------------------------------

  predicate IsOf(c: Candidate, user: UserId, author: AuthorId) {
    c.question.user == user && c.question.author == author
  }

  // Another row takes the question of the loser's row `id`: the survivor's own,
  // or an earlier one of the loser that is restamped onto it.
  predicate Displaced(
      rows: Candidates, user: UserId, survivor: AuthorId, loser: AuthorId, generation: int, id: CandidateId)
    requires id in rows
  {
    var target := TargetOf(rows[id], survivor, generation);
    exists p :: p in rows && (rows[p].question == target
                              || (p < id && IsOf(rows[p], user, loser)
                                  && TargetOf(rows[p], survivor, generation) == target))
  }

  lemma {:induction false} FirstIsLeast(
      rows: Candidates, survivor: AuthorId, generation: int, ids: seq<CandidateId>, n: nat, q: Question, k: nat)
    requires Listed(rows, ids, survivor) && k < n <= |ids| && TargetOf(rows[ids[k]], survivor, generation) == q
    ensures First(rows, survivor, generation, ids, n, q).Some?
    ensures First(rows, survivor, generation, ids, n, q).value <= ids[k]
    ensures exists j :: 0 <= j <= k && ids[j] == First(rows, survivor, generation, ids, n, q).value
  {
    if k < n - 1 {
      FirstIsLeast(rows, survivor, generation, ids, n - 1, q, k);
    } else if First(rows, survivor, generation, ids, n - 1, q).Some? {
      var j := FirstIndex(rows, survivor, generation, ids, n - 1, q);
      assert ids[j] < ids[k];
    } else {
      assert ids[k] == First(rows, survivor, generation, ids, n, q).value;
    }
  }

  lemma {:induction false} FirstIndex(
      rows: Candidates, survivor: AuthorId, generation: int, ids: seq<CandidateId>, n: nat, q: Question)
    returns (j: nat)
    requires n <= |ids| && First(rows, survivor, generation, ids, n, q).Some?
    ensures j < n && ids[j] == First(rows, survivor, generation, ids, n, q).value
  {
    if First(rows, survivor, generation, ids, n - 1, q).Some? {
      j := FirstIndex(rows, survivor, generation, ids, n - 1, q);
    } else {
      j := n - 1;
    }
  }

  // A row of the loser survives the merge exactly when nobody displaces it, and
  // then it is itself but for its question.
  lemma SurvivesIff(
      rows: Candidates, user: UserId, survivor: AuthorId, loser: AuthorId, generation: int, id: CandidateId)
    requires UniqueQuestions(rows) && survivor != loser && id in rows && IsOf(rows[id], user, loser)
    ensures var after := FoldedCandidates(rows, survivor, generation, CandidatesOf(rows, user, loser));
            && (id in after <==> !Displaced(rows, user, survivor, loser, generation, id))
            && (id in after ==> after[id] == rows[id].(question := TargetOf(rows[id], survivor, generation)))
  {
    var ids, q := CandidatesOf(rows, user, loser), TargetOf(rows[id], survivor, generation);
    CandidatesListed(rows, user, survivor, loser);
    assert ids[..|ids|] == ids;
    assert id in ids;
    var k :| 0 <= k < |ids| && ids[k] == id;
    LandsOrGoes(rows, survivor, generation, ids, |ids|, k);
    KeeperKeeps(rows, survivor, generation, ids, |ids|, q);
    KeeperIsItself(rows, user, survivor, loser, generation, k);
  }

  lemma KeeperIsItself(
      rows: Candidates, user: UserId, survivor: AuthorId, loser: AuthorId, generation: int, k: nat)
    requires UniqueQuestions(rows) && survivor != loser && k < |CandidatesOf(rows, user, loser)|
    requires CandidatesOf(rows, user, loser)[k] in rows
    ensures var ids := CandidatesOf(rows, user, loser);
            var q := TargetOf(rows[ids[k]], survivor, generation);
            Keeper(rows, survivor, generation, ids, |ids|, q) == Some(ids[k])
            <==> !Displaced(rows, user, survivor, loser, generation, ids[k])
  {
    var ids := CandidatesOf(rows, user, loser);
    var id := ids[k];
    var q := TargetOf(rows[id], survivor, generation);
    var own := FindCandidate(rows, q);
    CandidatesListed(rows, user, survivor, loser);
    assert id in ids;
    FirstIsLeast(rows, survivor, generation, ids, |ids|, q, k);
    var first := First(rows, survivor, generation, ids, |ids|, q).value;
    assert first in ids;
    if own.None? && Displaced(rows, user, survivor, loser, generation, id) {
      var p :| p in rows && p < id && IsOf(rows[p], user, loser) && TargetOf(rows[p], survivor, generation) == q;
      assert p in ids;
      var l :| 0 <= l < |ids| && ids[l] == p;
      FirstIsLeast(rows, survivor, generation, ids, |ids|, q, l);
    }
  }

  // The merge loses no question. Each one that a row of the loser asks is asked
  // of the survivor, by the survivor's own row where it had one and otherwise by
  // the earliest row restamped onto it, and that row keeps its status and its
  // findings. Rows of every other author are as they were, and the loser has
  // none left.
  lemma QuestionsTravel(
      rows: Candidates, user: UserId, survivor: AuthorId, loser: AuthorId, generation: int, id: CandidateId)
    requires UniqueQuestions(rows) && survivor != loser
    ensures var after := FoldedCandidates(rows, survivor, generation, CandidatesOf(rows, user, loser));
            && after.Keys <= rows.Keys
            && (id in after ==> !IsOf(after[id], user, loser))
            && (id in rows ==>
                  if IsOf(rows[id], user, loser)
                  then exists keeper :: Asks(rows, after, user, survivor, loser, generation, id, keeper)
                  else id in after && after[id] == rows[id])
  {
    var ids := CandidatesOf(rows, user, loser);
    CandidatesListed(rows, user, survivor, loser);
    assert ids[..|ids|] == ids;
    if id in ids {
      var k :| 0 <= k < |ids| && ids[k] == id;
      LandsOrGoes(rows, survivor, generation, ids, |ids|, k);
      KeeperAsks(rows, user, survivor, loser, generation, k);
    } else if id in rows {
      OthersWait(rows, survivor, generation, ids, |ids|, id);
    }
  }

  // `keeper` asks the question of the loser's row `id`, as it stood before.
  ghost predicate Asks(
      rows: Candidates, after: Candidates, user: UserId, survivor: AuthorId, loser: AuthorId, generation: int,
      id: CandidateId, keeper: CandidateId)
    requires id in rows
  {
    var q := TargetOf(rows[id], survivor, generation);
    && keeper in rows && keeper in after && after[keeper] == rows[keeper].(question := q)
    && (rows[keeper].question == q
        || (keeper <= id && IsOf(rows[keeper], user, loser) && TargetOf(rows[keeper], survivor, generation) == q
            && !Displaced(rows, user, survivor, loser, generation, keeper)))
  }

  lemma KeeperAsks(
      rows: Candidates, user: UserId, survivor: AuthorId, loser: AuthorId, generation: int, k: nat)
    requires UniqueQuestions(rows) && survivor != loser && k < |CandidatesOf(rows, user, loser)|
    requires CandidatesOf(rows, user, loser)[k] in rows
    ensures var ids := CandidatesOf(rows, user, loser);
            exists keeper ::
              Asks(rows, FoldedCandidates(rows, survivor, generation, ids), user, survivor, loser, generation,
                   ids[k], keeper)
  {
    var ids := CandidatesOf(rows, user, loser);
    var q := TargetOf(rows[ids[k]], survivor, generation);
    CandidatesListed(rows, user, survivor, loser);
    assert ids[..|ids|] == ids;
    KeeperKeeps(rows, survivor, generation, ids, |ids|, q);
    FirstIsLeast(rows, survivor, generation, ids, |ids|, q, k);
    var keeper := Keeper(rows, survivor, generation, ids, |ids|, q).value;
    if FindCandidate(rows, q).None? {
      var j := FirstIndex(rows, survivor, generation, ids, |ids|, q);
      assert keeper in ids;
      KeeperIsItself(rows, user, survivor, loser, generation, j);
    }
    assert Asks(rows, FoldedCandidates(rows, survivor, generation, ids), user, survivor, loser, generation, ids[k],
        keeper);
  }

  predicate IsOpen(rows: Candidates, q: Question) {
    exists i :: i in rows && rows[i].question == q && rows[i].status == Pending
  }

  // An open row of the loser that is restamped onto the question and that no
  // other row displaces.
  predicate BringsOpen(
      rows: Candidates, user: UserId, survivor: AuthorId, loser: AuthorId, generation: int, q: Question, p: CandidateId)
  {
    && p in rows && IsOf(rows[p], user, loser) && rows[p].status == Pending
    && TargetOf(rows[p], survivor, generation) == q
    && !Displaced(rows, user, survivor, loser, generation, p)
  }

  // A question is open for the survivor after the merge exactly when it was
  // before, or the loser brings it: an answer on record closes an open question
  // of the loser, and an open row of the survivor reopens an answered one.
  lemma OpenAfterIff(
      rows: Candidates, user: UserId, survivor: AuthorId, loser: AuthorId, generation: int, q: Question)
    requires UniqueQuestions(rows) && survivor != loser && q.user == user && q.author == survivor
    ensures IsOpen(FoldedCandidates(rows, survivor, generation, CandidatesOf(rows, user, loser)), q)
       <==> IsOpen(rows, q) || exists p :: BringsOpen(rows, user, survivor, loser, generation, q, p)
  {
    var after := FoldedCandidates(rows, survivor, generation, CandidatesOf(rows, user, loser));
    if i :| i in rows && rows[i].question == q && rows[i].status == Pending {
      QuestionsTravel(rows, user, survivor, loser, generation, i);
    }
    if p :| BringsOpen(rows, user, survivor, loser, generation, q, p) {
      SurvivesIff(rows, user, survivor, loser, generation, p);
      assert after[p].question == q;
    }
    if i :| i in after && after[i].question == q && after[i].status == Pending {
      if IsOf(rows[i], user, loser) {
        SurvivesIff(rows, user, survivor, loser, generation, i);
        assert BringsOpen(rows, user, survivor, loser, generation, q, i);
      } else {
        QuestionsTravel(rows, user, survivor, loser, generation, i);
      }
    }
  }
}
