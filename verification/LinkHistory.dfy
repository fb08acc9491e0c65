// User sovereignty over whole runs: a removed route stays removed, a dismissed
// question stays dismissed (crates/livrarr-db/src/sqlite_author_link.rs:541-596,
// 1182-1224, 1424-1482, 1607-1760, 1814-1896, 2164-2207, 2364-2397, 2523-2539,
// 2700-2708, 2807-2860). Authors merge in these runs; otherwise none is deleted.
module LinkHistory {
  import opened Basics
  import opened RouteKeys
  import opened LinkProgress
  import opened LinkTables
  import opened CandidateFold

  ghost predicate IsHistory(ts: seq<Tables>, ms: seq<LinkTables.Moment>) {
    && |ts| == |ms| + 1
    && (forall i :: 0 <= i < |ts| ==> Valid(ts[i]))
    && forall i :: 0 <= i < |ms| ==> ts[i + 1] == LinkTables.Step(ts[i], ms[i])
  }

  // Every list of transactions has one: no step ever breaks a unique key.
  ghost function Run(t: Tables, ms: seq<LinkTables.Moment>): (ts: seq<Tables>)
    requires Valid(t)
    ensures IsHistory(ts, ms) && ts[0] == t
  {
    if ms == [] then [t]
    else
      var front := Run(t, ms[..|ms| - 1]);
      StepKeepsValid(front[|ms| - 1], ms[|ms| - 1]);
      front + [LinkTables.Step(front[|ms| - 1], ms[|ms| - 1])]
  }

  // ------------------------------------------------------------------
  // Routes
  // ------------------------------------------------------------------

  // An explicit choice of this very tuple by its user.
  predicate Chooses(t: Tables, m: LinkTables.Moment, user: UserId, key: RouteKey)
    requires Valid(t)
  {
    match m.event
    case AttachedByUser(u, author, k) => u == user && k == key && !AttachFails(t, u, author, k)
    case PickedByUser(u, candidate, generation) =>
      u == user && CanPick(t, u, candidate, generation) && t.candidates[candidate].question.key == key
    case _ => false
  }

  // A row keeps its tuple; its provenance only ever gets better; only its
  // user's choice of the tuple lifts a removal; only its user removes it.
  ghost predicate RouteOnward(t: Tables, m: LinkTables.Moment, before: Route, after: Route)
    requires Valid(t)
  {
    && after.user == before.user && after.key == before.key
    && Rank(after.provenance) <= Rank(before.provenance)
    && (before.removed && !after.removed ==> Chooses(t, m, before.user, before.key) && after.provenance == UserPicked)
    && (!before.removed && after.removed ==> m.event.RemovedByUser? && m.event.user == before.user)
  }

  // The worker's evidence is one of the two guarded kinds.
  predicate Guards(m: LinkTables.Moment) {
    m.event.Guarded? ==> m.event.evidence.provenance in {Tier1Inherited, ReadarrGuarded}
  }

  lemma RouteStep(t: Tables, m: LinkTables.Moment, id: RouteId)
    requires Valid(t) && Guards(m) && id in t.routes
    ensures id in LinkTables.Step(t, m).routes
    ensures RouteOnward(t, m, t.routes[id], LinkTables.Step(t, m).routes[id])
  {
    match m.event {
      case Recorded(user, author, proposals, stored) => RecordLeavesRoutes(t, user, author, proposals, stored);
      case _ =>
    }
  }

  lemma {:induction false} RecordEachLeavesRoutes(t: Tables, user: UserId, ps: seq<Proposal>)
    requires Valid(t)
    ensures RecordEach(t, user, ps).routes == t.routes
  {
    if ps != [] {
      RecordEachLeavesRoutes(t, user, ps[..|ps| - 1]);
    }
  }

  lemma RecordLeavesRoutes(t: Tables, user: UserId, author: AuthorId, ps: seq<Proposal>, stored: int)
    requires Valid(t)
    ensures Record(t, user, author, ps, stored).routes == t.routes
  {
    if ps != [] && Newest(ps) > stored {
      SupersedeKeepsValid(t, user, author, Newest(ps));
      RecordEachLeavesRoutes(t.(candidates := Supersede(t.candidates, user, author, Newest(ps))), user, ps);
    } else if ps != [] {
      RecordEachLeavesRoutes(t, user, ps);
    }
  }

  ghost predicate GuardsAll(ms: seq<LinkTables.Moment>) {
    forall i :: 0 <= i < |ms| ==> Guards(ms[i])
  }

  // Over any stretch of a run a row keeps its tuple and never gets a worse
  // provenance, and a removed tuple stays removed unless its user chose it.
  lemma {:induction false} RemovalHolds(
      ts: seq<Tables>, ms: seq<LinkTables.Moment>, i: nat, j: nat, id: RouteId)
    requires IsHistory(ts, ms) && GuardsAll(ms) && i <= j <= |ms| && id in ts[i].routes
    ensures id in ts[j].routes
    ensures var before, after := ts[i].routes[id], ts[j].routes[id];
            && after.user == before.user && after.key == before.key
            && Rank(after.provenance) <= Rank(before.provenance)
            && (before.removed && !after.removed ==>
                  exists k :: i <= k < j && Chooses(ts[k], ms[k], before.user, before.key))
  {
    if i < j {
      RemovalHolds(ts, ms, i, j - 1, id);
      assert ts[j] == LinkTables.Step(ts[j - 1], ms[j - 1]);
      RouteStep(ts[j - 1], ms[j - 1], id);
    }
  }

  // So no row of the tuple is active while nobody chose it: there is only one.
  lemma RemovedTupleStaysRemoved(
      ts: seq<Tables>, ms: seq<LinkTables.Moment>, i: nat, j: nat, id: RouteId, other: RouteId)
    requires IsHistory(ts, ms) && GuardsAll(ms) && i <= j <= |ms| && id in ts[i].routes && ts[i].routes[id].removed
    requires forall k :: i <= k < j ==> !Chooses(ts[k], ms[k], ts[i].routes[id].user, ts[i].routes[id].key)
    requires other in ts[j].routes
    requires ts[j].routes[other].user == ts[i].routes[id].user && ts[j].routes[other].key == ts[i].routes[id].key
    ensures other == id && ts[j].routes[other].removed
    ensures WasRemoved(ts[j].routes, ts[i].routes[id].user, ts[i].routes[id].key)
  {
    RemovalHolds(ts, ms, i, j, id);
  }

  // ------------------------------------------------------------------
  // Dismissals
  // ------------------------------------------------------------------

  // The merge that takes this row from its author deletes it: another row asks
  // its question of the survivor.
  predicate Drops(t: Tables, m: LinkTables.Moment, id: CandidateId) {
    && m.event.Merged? && m.event.survivor != m.event.loser && id in t.candidates
    && IsOf(t.candidates[id], m.event.user, m.event.loser)
    && Displaced(t.candidates, m.event.user, m.event.survivor, m.event.loser, m.event.generation, id)
  }

  // A merge hands a row to the survivor; nothing else changes its question.
  function QuestionAfter(m: LinkTables.Moment, c: Candidate): Question {
    match m.event
    case Merged(user, survivor, loser, generation) =>
      if survivor != loser && IsOf(c, user, loser) then TargetOf(c, survivor, generation) else c.question
    case _ => c.question
  }

  // What a transaction may do to a candidate row that it keeps: no answered row
  // becomes pending again, and only a revocation lifts a dismissal.
  ghost predicate CandidateOnward(m: LinkTables.Moment, before: Candidate, after: Candidate) {
    && after.question == QuestionAfter(m, before)
    && (after.status == Pending ==> before.status == Pending)
    && (before.status == Dismissed ==> after.status == Dismissed)
    && (before.status == Dismissed ==> (after.revoked <==> before.revoked || Revokes(m, before)))
  }

  predicate Revokes(m: LinkTables.Moment, c: Candidate) {
    m.event == Revoked(c.question.user, c.question.author)
  }

  lemma UpsertOnward(
      t: Tables, q: Question, finding: Finding, previouslyRemoved: bool, work: Option<WorkId>, id: CandidateId)
    requires Valid(t) && id in t.candidates
    ensures var after := Upsert(t, q, finding, previouslyRemoved, work).candidates;
            && id in after && after[id].question == t.candidates[id].question
            && after[id].status == t.candidates[id].status && after[id].revoked == t.candidates[id].revoked
  {}

  lemma {:induction false} RecordEachOnward(t: Tables, user: UserId, ps: seq<Proposal>, id: CandidateId)
    requires Valid(t) && id in t.candidates
    ensures var after := RecordEach(t, user, ps).candidates;
            && id in after && after[id].question == t.candidates[id].question
            && after[id].status == t.candidates[id].status && after[id].revoked == t.candidates[id].revoked
  {
    if ps != [] {
      var p, front := ps[|ps| - 1], RecordEach(t, user, ps[..|ps| - 1]);
      RecordEachOnward(t, user, ps[..|ps| - 1], id);
      UpsertOnward(front, Question(user, p.author, p.key, p.reason, p.generation), p.finding,
                   WasRemoved(front.routes, user, p.key), p.work, id);
    }
  }

  lemma GuardOnward(
      t: Tables, user: UserId, author: AuthorId, e: Evidence, generation: int, now: Time, id: CandidateId)
    requires Valid(t) && id in t.candidates
    ensures var after := Guard(t, user, author, e, generation, now).candidates;
            && id in after && after[id].question == t.candidates[id].question
            && after[id].status == t.candidates[id].status && after[id].revoked == t.candidates[id].revoked
  {
    match GuardOutcome(t, user, author, e.key) {
      case ParkedCollision =>
        UpsertOnward(t, Question(user, author, e.key, OwnershipCollision, generation), e.finding, false, None, id);
      case ParkedTombstoned =>
        UpsertOnward(t, Question(user, author, e.key, Tombstoned, generation), e.finding, true, None, id);
      case ParkedContradiction =>
        UpsertOnward(t, Question(user, author, e.key, LegacyContradiction, generation), e.finding, false, None, id);
      case _ =>
    }
  }

  lemma RecordOnward(
      t: Tables, user: UserId, author: AuthorId, ps: seq<Proposal>, stored: int, id: CandidateId)
    requires Valid(t) && id in t.candidates
    ensures var after := Record(t, user, author, ps, stored).candidates;
            && id in after && after[id].question == t.candidates[id].question
            && (after[id].status == Pending ==> t.candidates[id].status == Pending)
            && (t.candidates[id].status == Dismissed ==> after[id].status == Dismissed)
            && after[id].revoked == t.candidates[id].revoked
  {
    if ps != [] && Newest(ps) > stored {
      SupersedeKeepsValid(t, user, author, Newest(ps));
      RecordEachOnward(t.(candidates := Supersede(t.candidates, user, author, Newest(ps))), user, ps, id);
    } else if ps != [] {
      RecordEachOnward(t, user, ps, id);
    }
  }

  lemma MergeOnward(
      t: Tables, user: UserId, survivor: AuthorId, loser: AuthorId, generation: int, id: CandidateId)
    requires Valid(t) && survivor != loser && id in t.candidates
    ensures var after, mine := FoldedTables(t, user, survivor, loser, generation).candidates,
                               IsOf(t.candidates[id], user, loser);
            && (id in after <==> !(mine && Displaced(t.candidates, user, survivor, loser, generation, id)))
            && (id in after ==> after[id] == if mine
                then t.candidates[id].(question := TargetOf(t.candidates[id], survivor, generation))
                else t.candidates[id])
  {
    if IsOf(t.candidates[id], user, loser) {
      SurvivesIff(t.candidates, user, survivor, loser, generation, id);
    } else {
      QuestionsTravel(t.candidates, user, survivor, loser, generation, id);
    }
  }

  lemma CandidateStep(t: Tables, m: LinkTables.Moment, id: CandidateId)
    requires Valid(t) && id in t.candidates
    ensures id in LinkTables.Step(t, m).candidates <==> !Drops(t, m, id)
    ensures !Drops(t, m, id) ==> CandidateOnward(m, t.candidates[id], LinkTables.Step(t, m).candidates[id])
  {
    match m.event {
      case Guarded(user, author, evidence, generation) =>
        GuardOnward(t, user, author, evidence, generation, m.now, id);
      case Rejected(question, finding) => UpsertOnward(t, question, finding, false, None, id);
      case Merged(user, survivor, loser, generation) =>
        if survivor != loser { MergeOnward(t, user, survivor, loser, generation, id); }
      case Recorded(user, author, proposals, stored) => RecordOnward(t, user, author, proposals, stored, id);
      case AttachedByUser(user, author, key) => AttachKeepsValid(t, user, author, key, m.now);
      case _ =>
    }
  }

  // Candidate ids are never used twice.
  lemma IdStaysUsed(t: Tables, m: LinkTables.Moment, id: CandidateId)
    requires Valid(t) && id < t.nextCandidate
    ensures id < LinkTables.Step(t, m).nextCandidate
    ensures id !in t.candidates ==> id !in LinkTables.Step(t, m).candidates
  {
    match m.event {
      case Recorded(user, author, proposals, stored) => RecordUsesNew(t, user, author, proposals, stored, id);
      case AttachedByUser(user, author, key) => AttachKeepsValid(t, user, author, key, m.now);
      case PickedByUser(user, candidate, generation) =>
        if CanPick(t, user, candidate, generation) {
          AttachKeepsValid(t, user, t.candidates[candidate].question.author, t.candidates[candidate].question.key,
              m.now);
        }
      case _ =>
    }
  }

  lemma {:induction false} RecordEachUsesNew(t: Tables, user: UserId, ps: seq<Proposal>, id: CandidateId)
    requires Valid(t) && id < t.nextCandidate
    ensures id < RecordEach(t, user, ps).nextCandidate
    ensures id !in t.candidates ==> id !in RecordEach(t, user, ps).candidates
  {
    if ps != [] {
      RecordEachUsesNew(t, user, ps[..|ps| - 1], id);
    }
  }

  lemma RecordUsesNew(
      t: Tables, user: UserId, author: AuthorId, ps: seq<Proposal>, stored: int, id: CandidateId)
    requires Valid(t) && id < t.nextCandidate
    ensures id < Record(t, user, author, ps, stored).nextCandidate
    ensures id !in t.candidates ==> id !in Record(t, user, author, ps, stored).candidates
  {
    if ps != [] && Newest(ps) > stored {
      SupersedeKeepsValid(t, user, author, Newest(ps));
      RecordEachUsesNew(t.(candidates := Supersede(t.candidates, user, author, Newest(ps))), user, ps, id);
    } else if ps != [] {
      RecordEachUsesNew(t, user, ps, id);
    }
  }

  // The row is a dismissal that nobody has revoked.
  predicate Binds(t: Tables, id: CandidateId) {
    id in t.candidates && t.candidates[id].status == Dismissed && !t.candidates[id].revoked
  }

  // What ends a dismissal: the revocation of its author's dismissals, or a merge
  // in which another row takes its question.
  predicate Lifts(t: Tables, m: LinkTables.Moment, id: CandidateId) {
    id in t.candidates && (Revokes(m, t.candidates[id]) || Drops(t, m, id))
  }

  // A dismissal that was lifted does not come back.
  ghost predicate Lifted(t: Tables, id: CandidateId) {
    id < t.nextCandidate && (id in t.candidates ==> t.candidates[id].status == Dismissed && t.candidates[id].revoked)
  }

  lemma DismissalStep(t: Tables, m: LinkTables.Moment, id: CandidateId)
    requires Valid(t)
    ensures Binds(t, id) ==> Binds(LinkTables.Step(t, m), id) || Lifted(LinkTables.Step(t, m), id)
    ensures Binds(t, id) ==> (Binds(LinkTables.Step(t, m), id) <==> !Lifts(t, m, id))
    ensures Lifted(t, id) ==> Lifted(LinkTables.Step(t, m), id)
    ensures Binds(t, id) && Binds(LinkTables.Step(t, m), id) ==>
              LinkTables.Step(t, m).candidates[id].question == QuestionAfter(m, t.candidates[id])
  {
    if Binds(t, id) || Lifted(t, id) {
      IdStaysUsed(t, m, id);
      if id in t.candidates {
        CandidateStep(t, m, id);
      }
    }
  }

  // The author that a row of `author` belongs to after a stretch of the run.
  ghost function Heir(ms: seq<LinkTables.Moment>, i: nat, j: nat, user: UserId, author: AuthorId): AuthorId
    requires i <= j <= |ms|
    decreases j
  {
    if i == j then author
    else
      var a, e := Heir(ms, i, j - 1, user, author), ms[j - 1].event;
      if e.Merged? && e.user == user && e.loser == a then e.survivor else a
  }

  ghost predicate NothingLifts(ts: seq<Tables>, ms: seq<LinkTables.Moment>, i: nat, j: nat, id: CandidateId)
    requires i <= j <= |ms| < |ts|
  {
    forall k :: i <= k < j ==> !Lifts(ts[k], ms[k], id)
  }

  // The author that row `id` has at moment j, if it is still there.
  ghost function Heirs(ts: seq<Tables>, ms: seq<LinkTables.Moment>, i: nat, j: nat, id: CandidateId): AuthorId
    requires i <= j <= |ms| < |ts| && id in ts[i].candidates
  {
    Heir(ms, i, j, ts[i].candidates[id].question.user, ts[i].candidates[id].question.author)
  }

  ghost predicate Inherits(before: Tables, after: Tables, id: CandidateId, author: AuthorId) {
    id in before.candidates && id in after.candidates
    && after.candidates[id].question == before.candidates[id].question.(author := author)
  }

  ghost predicate NothingDrops(ts: seq<Tables>, ms: seq<LinkTables.Moment>, i: nat, j: nat, id: CandidateId)
    requires i <= j <= |ms| < |ts|
  {
    forall k :: i <= k < j ==> !Drops(ts[k], ms[k], id)
  }

  lemma NothingYet(ts: seq<Tables>, ms: seq<LinkTables.Moment>, i: nat, j: nat, id: CandidateId)
    requires i < j <= |ms| < |ts|
    ensures NothingDrops(ts, ms, i, j, id) <==> NothingDrops(ts, ms, i, j - 1, id) && !Drops(ts[j - 1], ms[j - 1], id)
    ensures NothingLifts(ts, ms, i, j, id) <==> NothingLifts(ts, ms, i, j - 1, id) && !Lifts(ts[j - 1], ms[j - 1], id)
  {}

  lemma InheritsOnward(ts: seq<Tables>, ms: seq<LinkTables.Moment>, i: nat, j: nat, id: CandidateId)
    requires i < j <= |ms| < |ts| && id in ts[i].candidates && id in ts[j].candidates
    requires Inherits(ts[i], ts[j - 1], id, Heirs(ts, ms, i, j - 1, id)) && ts[j - 1].candidates[id].status != Pending
    requires ts[j].candidates[id].question == QuestionAfter(ms[j - 1], ts[j - 1].candidates[id])
    ensures Inherits(ts[i], ts[j], id, Heirs(ts, ms, i, j, id))
  {}

  // The step into moment j, for a dismissal.
  lemma DismissalAt(ts: seq<Tables>, ms: seq<LinkTables.Moment>, j: nat, id: CandidateId)
    requires IsHistory(ts, ms) && 0 < j <= |ms|
    ensures Binds(ts[j - 1], id) ==> Binds(ts[j], id) || Lifted(ts[j], id)
    ensures Binds(ts[j - 1], id) ==> (Binds(ts[j], id) <==> !Lifts(ts[j - 1], ms[j - 1], id))
    ensures Lifted(ts[j - 1], id) ==> Lifted(ts[j], id)
    ensures Binds(ts[j - 1], id) && Binds(ts[j], id) ==>
              ts[j].candidates[id].question == QuestionAfter(ms[j - 1], ts[j - 1].candidates[id])
  {
    assert ts[j - 1 + 1] == LinkTables.Step(ts[j - 1], ms[j - 1]);
    DismissalStep(ts[j - 1], ms[j - 1], id);
  }

  lemma DismissalInherits(ts: seq<Tables>, ms: seq<LinkTables.Moment>, i: nat, j: nat, id: CandidateId)
    requires IsHistory(ts, ms) && i < j <= |ms| && Binds(ts[i], id) && Binds(ts[j - 1], id) && Binds(ts[j], id)
    requires Inherits(ts[i], ts[j - 1], id, Heirs(ts, ms, i, j - 1, id))
    ensures Inherits(ts[i], ts[j], id, Heirs(ts, ms, i, j, id))
  {
    DismissalAt(ts, ms, j, id);
    InheritsOnward(ts, ms, i, j, id);
  }

  // Over any run a dismissal binds exactly as long as its author's dismissals
  // are not revoked and no merge finds its question taken. It keeps its user,
  // tuple, reason and generation, and follows its author through merges.
  lemma {:induction false} DismissalHoldsIff(
      ts: seq<Tables>, ms: seq<LinkTables.Moment>, i: nat, j: nat, id: CandidateId)
    requires IsHistory(ts, ms) && i <= j <= |ms| && Binds(ts[i], id)
    ensures Binds(ts[j], id) <==> NothingLifts(ts, ms, i, j, id)
    ensures Binds(ts[j], id) || Lifted(ts[j], id)
    ensures Binds(ts[j], id) ==> Inherits(ts[i], ts[j], id, Heirs(ts, ms, i, j, id))
  {
    if i < j {
      DismissalHoldsIff(ts, ms, i, j - 1, id);
      DismissalAt(ts, ms, j, id);
      NothingYet(ts, ms, i, j, id);
      if Binds(ts[j - 1], id) && Binds(ts[j], id) {
        DismissalInherits(ts, ms, i, j, id);
      }
    }
  }

  function Asked(id: CandidateId, author: AuthorId, status: Status): Candidate {
    Candidate(Question(1, author, GoodreadsKey(7), NameGuardFailed, 3), Finding("N. N.", Grey, 0, None), false,
        status, false,
              None)
  }

  // A run in which a dismissal is lost without any revocation: author 10 is
  // still being asked what author 20's user has dismissed, and 20 merges into
  // 10. The open row stays, the dismissed one goes.
  lemma MergeCanDropDismissal()
    ensures var t := Tables(map[], 1, map[1 := Asked(1, 10, Pending), 2 := Asked(2, 20, Dismissed)], 3);
            var m := LinkTables.Moment(0, Merged(1, 10, 20, 3));
            && Valid(t) && Binds(t, 2) && Drops(t, m, 2)
            && 2 !in LinkTables.Step(t, m).candidates
            && IsOpen(LinkTables.Step(t, m).candidates, Asked(2, 10, Dismissed).question)
  {
    var rows := map[1 := Asked(1, 10, Pending), 2 := Asked(2, 20, Dismissed)];
    assert rows[1].question == TargetOf(rows[2], 10, 3);
    SurvivesIff(rows, 1, 10, 20, 3, 2);
    QuestionsTravel(rows, 1, 10, 20, 3, 1);
  }

  predicate Asks(q: Question, user: UserId, author: AuthorId, key: RouteKey, reason: Reason) {
    q == Question(user, author, key, reason, q.generation)
  }

  // Recording candidates adds no row for a silenced question.
  ghost predicate NoneNew(
      before: Candidates, after: Candidates,
      user: UserId, author: AuthorId, key: RouteKey, reason: Reason)
  {
    forall i :: i in after && Asks(after[i].question, user, author, key, reason) ==> i in before
  }

  lemma {:induction false} RecordEachSilent(
      t: Tables, user: UserId, ps: seq<Proposal>, id: CandidateId, author: AuthorId, key: RouteKey, reason: Reason)
    requires Valid(t) && id in t.candidates && t.candidates[id].Silences(user, author, key, reason)
    ensures NoneNew(t.candidates, RecordEach(t, user, ps).candidates, user, author, key, reason)
  {
    if ps != [] {
      var p, front := ps[|ps| - 1], RecordEach(t, user, ps[..|ps| - 1]);
      RecordEachSilent(t, user, ps[..|ps| - 1], id, author, key, reason);
      RecordEachOnward(t, user, ps[..|ps| - 1], id);
      assert front.candidates[id].Silences(user, author, key, reason);
      RecordOneSilent(front, user, p, author, key, reason);
    }
  }

  lemma RecordOneSilent(
      t: Tables, user: UserId, p: Proposal, author: AuthorId, key: RouteKey, reason: Reason)
    requires Valid(t) && Silenced(t.candidates, user, author, key, reason)
    ensures NoneNew(t.candidates, RecordOne(t, user, p).candidates, user, author, key, reason)
  {}

  // While a dismissal binds, recording candidates makes no row for its
  // question pending that was not pending before, whichever author the merges
  // have brought it to.
  lemma DismissedIsNotAskedAgain(
      ts: seq<Tables>, ms: seq<LinkTables.Moment>, i: nat, j: nat, id: CandidateId, row: CandidateId)
    requires IsHistory(ts, ms) && i <= j < |ms| && Binds(ts[i], id) && NothingLifts(ts, ms, i, j, id)
    requires var q := ts[i].candidates[id].question;
             && ms[j].event.Recorded? && ms[j].event.user == q.user
             && row in ts[j + 1].candidates && ts[j + 1].candidates[row].status == Pending
             && ts[j + 1].candidates[row].question
                == q.(author := Heirs(ts, ms, i, j, id),
                      generation := ts[j + 1].candidates[row].question.generation)
    ensures row in ts[j].candidates && ts[j].candidates[row].status == Pending
  {
    DismissalHoldsIff(ts, ms, i, j, id);
    var e := ms[j].event;
    assert ts[j + 1] == LinkTables.Step(ts[j], ms[j]);
    RecordSilent(ts[j], e.user, e.author, e.proposals, e.stored, id);
    CandidateStep(ts[j], ms[j], row);
  }

  // A merge does not ask whether a question was dismissed. Under a standing
  // dismissal of the survivor, the same question is open afterwards under
  // generation g exactly when it was before, or g is the survivor's current
  // generation and the loser brings it open.
  lemma MergeAsksDismissedIff(
      t: Tables, user: UserId, survivor: AuthorId, loser: AuthorId, generation: int, id: CandidateId, g: int)
    requires Valid(t) && survivor != loser && Binds(t, id)
    requires t.candidates[id].question.user == user && t.candidates[id].question.author == survivor
    ensures var after, q := FoldedTables(t, user, survivor, loser, generation),
                            t.candidates[id].question.(generation := g);
            && Binds(after, id) && after.candidates[id].question == t.candidates[id].question
            && (IsOpen(after.candidates, q) <==>
                  IsOpen(t.candidates, q)
                  || (g == generation
                      && exists p :: BringsOpen(t.candidates, user, survivor, loser, generation, q, p)))
  {
    var q := t.candidates[id].question.(generation := g);
    OpenAfterIff(t.candidates, user, survivor, loser, generation, q);
    MergeOnward(t, user, survivor, loser, generation, id);
    if p :| BringsOpen(t.candidates, user, survivor, loser, generation, q, p) {
      assert TargetOf(t.candidates[p], survivor, generation).generation == generation;
    }
  }

  // A merge that does: author 10 has dismissed the question under generation 3,
  // author 20 is still being asked it, and 10 is at generation 4 by now.
  lemma MergeCanAskDismissed()
    ensures var t := Tables(map[], 1, map[1 := Asked(1, 10, Dismissed), 2 := Asked(2, 20, Pending)], 3);
            var after := LinkTables.Step(t, LinkTables.Moment(0, Merged(1, 10, 20, 4)));
            && Valid(t) && Binds(t, 1) && Binds(after, 1)
            && IsOpen(after.candidates, Asked(1, 10, Pending).question.(generation := 4))
  {
    var rows := map[1 := Asked(1, 10, Dismissed), 2 := Asked(2, 20, Pending)];
    var t, q := Tables(map[], 1, rows, 3), rows[1].question.(generation := 4);
    assert Valid(t) && Binds(t, 1);
    assert TargetOf(rows[2], 10, 4) == q && rows[1].question != q && rows[2].question != q;
    assert BringsOpen(rows, 1, 10, 20, 4, q, 2);
    MergeAsksDismissedIff(t, 1, 10, 20, 4, 1, 4);
  }

  lemma RecordSilent(
      t: Tables, user: UserId, author: AuthorId, ps: seq<Proposal>, stored: int, id: CandidateId)
    requires Valid(t) && id in t.candidates && t.candidates[id].question.user == user
    requires t.candidates[id].status == Dismissed && !t.candidates[id].revoked
    ensures var q := t.candidates[id].question;
            NoneNew(t.candidates, Record(t, user, author, ps, stored).candidates, user, q.author, q.key, q.reason)
  {
    var q := t.candidates[id].question;
    if ps != [] && Newest(ps) > stored {
      SupersedeKeepsValid(t, user, author, Newest(ps));
      RecordEachSilent(
        t.(candidates := Supersede(t.candidates, user, author, Newest(ps))), user, ps, id, q.author, q.key, q.reason);
    } else if ps != [] {
      RecordEachSilent(t, user, ps, id, q.author, q.key, q.reason);
    }
  }

  predicate Answered(t: Tables, id: CandidateId) {
    id in t.candidates && t.candidates[id].status != Pending
  }

  // Whatever happens, revocation included, an answered row stays answered unless
  // a merge finds its question taken; and while it is there the question does
  // not come back under its own generation: any pending row asks another one.
  lemma {:induction false} AnsweredStaysAnsweredIff(
      ts: seq<Tables>, ms: seq<LinkTables.Moment>, i: nat, j: nat, id: CandidateId)
    requires IsHistory(ts, ms) && i <= j <= |ms| && Answered(ts[i], id)
    ensures Answered(ts[j], id) <==> NothingDrops(ts, ms, i, j, id)
    ensures Answered(ts[j], id) ==>
              Inherits(ts[i], ts[j], id, Heirs(ts, ms, i, j, id))
              && !IsOpen(ts[j].candidates, ts[j].candidates[id].question)
  {
    AnsweredRow(ts, ms, i, j, id);
  }

  lemma {:induction false} AnsweredRow(
      ts: seq<Tables>, ms: seq<LinkTables.Moment>, i: nat, j: nat, id: CandidateId)
    requires IsHistory(ts, ms) && i <= j <= |ms| && Answered(ts[i], id)
    ensures Answered(ts[j], id) || Dropped(ts[j], id)
    ensures Answered(ts[j], id) <==> NothingDrops(ts, ms, i, j, id)
    ensures Answered(ts[j], id) ==> Inherits(ts[i], ts[j], id, Heirs(ts, ms, i, j, id))
  {
    if i < j {
      AnsweredRow(ts, ms, i, j - 1, id);
      AnsweredAt(ts, ms, j, id);
      NothingYet(ts, ms, i, j, id);
      if Answered(ts[j], id) {
        InheritsOnward(ts, ms, i, j, id);
      }
    }
  }

  // The step into moment j, for an answered row.
  lemma AnsweredAt(ts: seq<Tables>, ms: seq<LinkTables.Moment>, j: nat, id: CandidateId)
    requires IsHistory(ts, ms) && 0 < j <= |ms| && (Answered(ts[j - 1], id) || Dropped(ts[j - 1], id))
    ensures Answered(ts[j], id) <==> Answered(ts[j - 1], id) && !Drops(ts[j - 1], ms[j - 1], id)
    ensures Answered(ts[j], id) || Dropped(ts[j], id)
    ensures Answered(ts[j], id) ==>
              ts[j].candidates[id].question == QuestionAfter(ms[j - 1], ts[j - 1].candidates[id])
  {
    assert ts[j - 1 + 1] == LinkTables.Step(ts[j - 1], ms[j - 1]);
    AnsweredStep(ts[j - 1], ms[j - 1], id);
  }

  // Gone for good.
  ghost predicate Dropped(t: Tables, id: CandidateId) {
    id < t.nextCandidate && id !in t.candidates
  }

  lemma AnsweredStep(t: Tables, m: LinkTables.Moment, id: CandidateId)
    requires Valid(t) && (Answered(t, id) || Dropped(t, id))
    ensures var after := LinkTables.Step(t, m);
            && (Answered(after, id) <==> Answered(t, id) && !Drops(t, m, id))
            && (Answered(after, id) || Dropped(after, id))
            && (Answered(after, id) ==> after.candidates[id].question == QuestionAfter(m, t.candidates[id]))
  {
    IdStaysUsed(t, m, id);
    if id in t.candidates {
      CandidateStep(t, m, id);
    }
  }

  // ------------------------------------------------------------------
  // What a write leaves behind
  // ------------------------------------------------------------------

  ghost predicate IsAsked(t: Tables, q: Question) {
    exists i :: i in t.candidates && t.candidates[i].question == q
  }

  ghost predicate HoldsRoute(t: Tables, user: UserId, author: AuthorId, key: RouteKey, now: Time) {
    exists i :: i in t.routes && t.routes[i].user == user && t.routes[i].author == author && t.routes[i].key == key
      && !t.routes[i].removed && t.routes[i].provenance != LegacyUnguarded && t.routes[i].verifiedAt == Some(now)
  }

  function ParkedReason(o: Outcome): Reason
    requires o in {ParkedCollision, ParkedTombstoned, ParkedContradiction}
  {
    match o
    case ParkedCollision => OwnershipCollision
    case ParkedTombstoned => Tombstoned
    case _ => LegacyContradiction
  }

  // Guarded evidence either lands as a verified active route of the author or
  // is parked: then no route changes and the question is on record.
  lemma GuardLandsOrParks(
      t: Tables, user: UserId, author: AuthorId, e: Evidence, generation: int, now: Time)
    requires Valid(t) && e.provenance != LegacyUnguarded
    ensures var after, outcome := Guard(t, user, author, e, generation, now), GuardOutcome(t, user, author, e.key);
            if outcome in {ParkedCollision, ParkedTombstoned, ParkedContradiction}
            then after.routes == t.routes
                 && IsAsked(after, Question(user, author, e.key, ParkedReason(outcome), generation))
            else HoldsRoute(after, user, author, e.key, now) && after.candidates == t.candidates
  {
    var after, found := Guard(t, user, author, e, generation, now), FindRoute(t.routes, user, e.key);
    match GuardOutcome(t, user, author, e.key) {
      case ParkedCollision => UpsertAsks(t, Question(user, author, e.key, OwnershipCollision, generation), e.finding,
          false, None);
      case ParkedTombstoned => UpsertAsks(t, Question(user, author, e.key, Tombstoned, generation), e.finding, true,
          None);
      case ParkedContradiction => UpsertAsks(t, Question(user, author, e.key, LegacyContradiction, generation),
          e.finding, false, None);
      case Attached => assert after.routes[t.nextRoute].key == e.key;
      case _ => assert after.routes[found.value].key == e.key;
    }
  }

  lemma UpsertAsks(t: Tables, q: Question, finding: Finding, previouslyRemoved: bool, work: Option<WorkId>)
    requires Valid(t)
    ensures IsAsked(Upsert(t, q, finding, previouslyRemoved, work), q)
    ensures Upsert(t, q, finding, previouslyRemoved, work).routes == t.routes
  {
    var after := Upsert(t, q, finding, previouslyRemoved, work);
    match FindCandidate(t.candidates, q) {
      case Some(i) => assert after.candidates[i].question == q;
      case None => assert after.candidates[t.nextCandidate].question == q;
    }
  }

  // A user attach ends with the tuple active, the author's and user-picked.
  lemma AttachLands(t: Tables, user: UserId, author: AuthorId, key: RouteKey, now: Time)
    requires Valid(t) && !AttachFails(t, user, author, key)
    ensures HoldsRoute(Attach(t, user, author, key, now), user, author, key, now)
    ensures !WasRemoved(Attach(t, user, author, key, now).routes, user, key)
    ensures forall i :: i in t.routes && !(t.routes[i].user == user && t.routes[i].key == key) ==>
              Attach(t, user, author, key, now).routes[i] == t.routes[i]
  {
    var after, found := Attach(t, user, author, key, now), FindRoute(t.routes, user, key);
    AttachKeepsValid(t, user, author, key, now);
    var id := if found.Some? then found.value else t.nextRoute;
    assert after.routes[id].key == key && !after.routes[id].removed;
  }

  // A pick answers the author's whole current generation: the chosen candidate
  // is picked, no other is left pending there, and every other row is as it was.
  lemma PickAnswersGeneration(t: Tables, user: UserId, id: CandidateId, generation: int, now: Time, other: CandidateId)
    requires Valid(t) && CanPick(t, user, id, generation) && other in t.candidates
    ensures var after, q := Pick(t, user, id, generation, now), t.candidates[id].question;
            && HoldsRoute(after, user, q.author, q.key, now)
            && after.candidates[id] == t.candidates[id].(status := LinkTables.Picked)
            && (var c := t.candidates[other].question;
                if c.user == q.user && c.author == q.author && c.generation == generation
                then after.candidates[other].status != Pending
                else after.candidates[other] == t.candidates[other])
  {
    var q := t.candidates[id].question;
    AttachKeepsValid(t, user, q.author, q.key, now);
    AttachLands(t, user, q.author, q.key, now);
    var attached, after := Attach(t, user, q.author, q.key, now), Pick(t, user, id, generation, now);
    var i :| i in attached.routes && attached.routes[i].user == user && attached.routes[i].author == q.author
      && attached.routes[i].key == q.key && !attached.routes[i].removed
      && attached.routes[i].provenance != LegacyUnguarded && attached.routes[i].verifiedAt == Some(now);
    assert after.routes[i] == attached.routes[i];
  }

  // Every proposal of an accepted worker is on record afterwards, unless a
  // standing dismissal keeps its question silent.
  lemma {:induction false} ProposalsAreAsked(t: Tables, user: UserId, ps: seq<Proposal>, k: nat)
    requires Valid(t) && k < |ps|
    ensures var p, after := ps[k], RecordEach(t, user, ps);
            IsAsked(after, Question(user, p.author, p.key, p.reason, p.generation))
            || Silenced(after.candidates, user, p.author, p.key, p.reason)
  {
    var last := |ps| - 1;
    var p, front := ps[k], RecordEach(t, user, ps[..last]);
    var l := ps[last];
    if k < last {
      ProposalsAreAsked(t, user, ps[..last], k);
      if IsAsked(front, Question(user, p.author, p.key, p.reason, p.generation)) {
        var i :| i in front.candidates
          && front.candidates[i].question == Question(user, p.author, p.key, p.reason, p.generation);
        RecordOneOnward(front, user, l, i);
      } else {
        var i :| i in front.candidates && front.candidates[i].Silences(user, p.author, p.key, p.reason);
        RecordOneOnward(front, user, l, i);
        assert RecordEach(t, user, ps).candidates[i].Silences(user, p.author, p.key, p.reason);
      }
    } else if !Silenced(front.candidates, user, p.author, p.key, p.reason) {
      UpsertAsks(front, Question(user, p.author, p.key, p.reason, p.generation), p.finding,
                 WasRemoved(front.routes, user, p.key), p.work);
    }
  }

  lemma RecordOneOnward(t: Tables, user: UserId, p: Proposal, id: CandidateId)
    requires Valid(t) && id in t.candidates
    ensures var after := RecordOne(t, user, p).candidates;
            && id in after && after[id].question == t.candidates[id].question
            && after[id].status == t.candidates[id].status && after[id].revoked == t.candidates[id].revoked
  {
    UpsertOnward(t, Question(user, p.author, p.key, p.reason, p.generation), p.finding,
                 WasRemoved(t.routes, user, p.key), p.work, id);
  }

  // ------------------------------------------------------------------
  // A claim of one author writes rows of another
  // ------------------------------------------------------------------

  // No row of any author but this one appears or changes.
  ghost predicate OthersUntouched(
      before: Candidates, after: Candidates, author: AuthorId)
  {
    && (forall i :: i in before && before[i].question.author != author ==> i in after && after[i] == before[i])
    && forall i :: i in after && after[i].question.author != author ==> i in before
  }

  predicate AllOwn(ps: seq<Proposal>, author: AuthorId) {
    forall p :: p in ps ==> p.author == author
  }

  lemma {:induction false} OwnProposalsStayHome(t: Tables, user: UserId, ps: seq<Proposal>, author: AuthorId)
    requires Valid(t) && AllOwn(ps, author)
    ensures OthersUntouched(t.candidates, RecordEach(t, user, ps).candidates, author)
  {
    if ps != [] {
      var p, front := ps[|ps| - 1], RecordEach(t, user, ps[..|ps| - 1]);
      OwnProposalsStayHome(t, user, ps[..|ps| - 1], author);
      assert p in ps;
      var after := RecordOne(front, user, p);
      assert OthersUntouched(front.candidates, after.candidates, author);
    }
  }

  // `record_candidates` checks the claim of `author` but inserts under each
  // candidate's own author id. Other authors' rows are safe in every state
  // exactly when the worker names nobody else; one foreign name is enough to
  // write a row into an empty table.
  lemma RecordStaysHomeIff(user: UserId, author: AuthorId, ps: seq<Proposal>)
    ensures AllOwn(ps, author)
       <==> forall t: Tables, stored: int :: Valid(t) ==>
              OthersUntouched(t.candidates, Record(t, user, author, ps, stored).candidates, author)
  {
    if AllOwn(ps, author) {
      forall t: Tables, stored: int | Valid(t)
        ensures OthersUntouched(t.candidates, Record(t, user, author, ps, stored).candidates, author)
      {
        RecordOwn(t, user, author, ps, stored);
      }
    } else {
      var p :| p in ps && p.author != author;
      var empty := Tables(map[], 0, map[], 0);
      var after := RecordEach(empty, user, ps);
      ForeignRowAppears(user, ps, p);
      var stored := Newest(ps);
      assert Record(empty, user, author, ps, stored) == after;
      assert !OthersUntouched(empty.candidates, Record(empty, user, author, ps, stored).candidates, author);
    }
  }

  lemma RecordOwn(t: Tables, user: UserId, author: AuthorId, ps: seq<Proposal>, stored: int)
    requires Valid(t) && AllOwn(ps, author)
    ensures OthersUntouched(t.candidates, Record(t, user, author, ps, stored).candidates, author)
  {
    if ps != [] && Newest(ps) > stored {
      SupersedeKeepsValid(t, user, author, Newest(ps));
      OwnProposalsStayHome(t.(candidates := Supersede(t.candidates, user, author, Newest(ps))), user, ps, author);
    } else if ps != [] {
      OwnProposalsStayHome(t, user, ps, author);
    }
  }

  ghost predicate AllPending(candidates: Candidates) {
    forall i :: i in candidates ==> candidates[i].status == Pending
  }

  lemma {:induction false} ForeignRowAppears(user: UserId, ps: seq<Proposal>, p: Proposal)
    requires p in ps
    ensures var after := RecordEach(Tables(map[], 0, map[], 0), user, ps).candidates;
            AllPending(after) && exists i :: i in after && after[i].question.author == p.author
  {
    var empty := Tables(map[], 0, map[], 0);
    var last, front := ps[|ps| - 1], RecordEach(empty, user, ps[..|ps| - 1]);
    FrontPending(user, ps[..|ps| - 1]);
    if p in ps[..|ps| - 1] {
      ForeignRowAppears(user, ps[..|ps| - 1], p);
      var i :| i in front.candidates && front.candidates[i].question.author == p.author;
      assert RecordEach(empty, user, ps) == RecordOne(front, user, last);
      assert i in RecordOne(front, user, last).candidates;
    } else {
      assert p == last;
      RecordedRow(front, user, last);
    }
  }

  lemma RecordedRow(t: Tables, user: UserId, p: Proposal)
    requires Valid(t) && AllPending(t.candidates)
    ensures var after := RecordOne(t, user, p).candidates;
            AllPending(after) && exists i :: i in after && after[i].question.author == p.author
  {
    var q := Question(user, p.author, p.key, p.reason, p.generation);
    var after := RecordOne(t, user, p).candidates;
    match FindCandidate(t.candidates, q) {
      case Some(id) => assert after[id].question.author == p.author;
      case None => assert after[t.nextCandidate].question.author == p.author;
    }
  }

  lemma {:induction false} FrontPending(user: UserId, ps: seq<Proposal>)
    ensures AllPending(RecordEach(Tables(map[], 0, map[], 0), user, ps).candidates)
  {
    if ps != [] {
      FrontPending(user, ps[..|ps| - 1]);
      RecordedRow(RecordEach(Tables(map[], 0, map[], 0), user, ps[..|ps| - 1]), user, ps[|ps| - 1]);
    }
  }
}
