// Author routes and link candidates as tables of rows, one function per
// statement (crates/livrarr-db/src/sqlite_author_link.rs:444-596, 1567-1896,
// 2059-2207, 2364-2397, 2511-2570, 2700-2708). Both UNIQUE keys of migration
// 078 are invariants here, not part of the representation.
module LinkTables {
  import opened Basics
  import opened RouteKeys
  import opened LinkProgress
  import opened Sorting

  type RouteId = int
  type CandidateId = int
  type WorkId = int

  datatype Provenance = LegacyUnguarded | Tier1Inherited | ReadarrGuarded | UserPicked | MergeCoalesced

  // `provenance_rank`: lower is better.
  function Rank(p: Provenance): nat {
    match p
    case UserPicked => 0
    case Tier1Inherited => 1
    case ReadarrGuarded => 1
    case MergeCoalesced => 2
    case LegacyUnguarded => 3
  }

  datatype Route = Route(
    user: UserId, author: AuthorId, key: RouteKey, removed: bool, provenance: Provenance,
    work: Option<WorkId>, verifiedAt: Option<Time>, removedAt: Option<Time>)

  datatype Reason =
    | Tier2NameSearch | NameGuardFailed | ReadarrNameGuardFailed | Tombstoned | LegacyContradiction
    | OwnershipCollision | InvalidLegacyRoute

  datatype Status = Pending | Dismissed | Picked | Superseded

  datatype Verdict = Agree | Grey | Disagree | Abstain

  // What an observation of a candidate carries besides its question. Only a
  // worker's candidates bring alternate names; they replace the ones on record.
  datatype Finding = Finding(name: string, verdict: Verdict, observedAt: Time, alternates: Option<seq<string>>)

  function Refreshed(was: Finding, finding: Finding): Finding {
    if finding.alternates.Some? then finding else finding.(alternates := was.alternates)
  }

  // UNIQUE(user_id, author_id, provider, route_value, reason, evidence_generation).
  datatype Question = Question(user: UserId, author: AuthorId, key: RouteKey, reason: Reason, generation: int)

  datatype Candidate = Candidate(
    question: Question, finding: Finding, previouslyRemoved: bool, status: Status, revoked: bool, work: Option<WorkId>)
  {
    // A dismissal the user has not revoked.
    predicate Silences(user: UserId, author: AuthorId, key: RouteKey, reason: Reason) {
      question == Question(user, author, key, reason, question.generation) && status == Dismissed && !revoked
    }
  }

  type Candidates = map<CandidateId, Candidate>

  datatype Tables = Tables(
    routes: map<RouteId, Route>, nextRoute: RouteId, candidates: Candidates, nextCandidate: CandidateId)

  ghost predicate UniqueRoutes(routes: map<RouteId, Route>) {
    forall i, j :: i in routes && j in routes && i != j ==>
      !(routes[i].user == routes[j].user && routes[i].key == routes[j].key)
  }

  ghost predicate UniqueQuestions(candidates: Candidates) {
    forall i, j :: i in candidates && j in candidates && i != j ==> candidates[i].question != candidates[j].question
  }

  ghost predicate Valid(t: Tables) {
    && UniqueRoutes(t.routes) && UniqueQuestions(t.candidates)
    && (forall i :: i in t.routes ==> i < t.nextRoute)
    && forall i :: i in t.candidates ==> i < t.nextCandidate
  }

  // ------------------------------------------------------------------
  // Reads
  // ------------------------------------------------------------------

  function FindRoute(routes: map<RouteId, Route>, user: UserId, key: RouteKey): (r: Option<RouteId>)
    requires UniqueRoutes(routes)
    ensures r.Some? ==> r.value in routes && routes[r.value].user == user && routes[r.value].key == key
    ensures r.None? ==> forall i :: i in routes ==> !(routes[i].user == user && routes[i].key == key)
  {
    if i :| i in routes && routes[i].user == user && routes[i].key == key then Some(i) else None
  }

  function FindCandidate(candidates: Candidates, q: Question): (r: Option<CandidateId>)
    requires UniqueQuestions(candidates)
    ensures r.Some? ==> r.value in candidates && candidates[r.value].question == q
    ensures r.None? ==> forall i :: i in candidates ==> candidates[i].question != q
  {
    if i :| i in candidates && candidates[i].question == q then Some(i) else None
  }

  predicate Silenced(
      candidates: Candidates, user: UserId, author: AuthorId, key: RouteKey, reason: Reason)
  {
    exists i :: i in candidates && candidates[i].Silences(user, author, key, reason)
  }

  // `previously_removed`: any author of the user.
  predicate WasRemoved(routes: map<RouteId, Route>, user: UserId, key: RouteKey) {
    exists i :: i in routes && routes[i].user == user && routes[i].key == key && routes[i].removed
  }

  predicate HasLegacy(routes: map<RouteId, Route>, user: UserId, author: AuthorId, provider: Provider) {
    exists i :: i in routes && routes[i].user == user && routes[i].author == author
                && routes[i].key.Provider() == provider && !routes[i].removed && routes[i].provenance == LegacyUnguarded
  }

  // ------------------------------------------------------------------
  // Writes
  // ------------------------------------------------------------------

  // INSERT ... ON CONFLICT DO UPDATE, of both candidate writers: the conflict
  // clause never touches status, and the first work named stays.
  function Upsert(t: Tables, q: Question, finding: Finding, previouslyRemoved: bool, work: Option<WorkId>): Tables
    requires Valid(t)
  {
    match FindCandidate(t.candidates, q)
    case Some(id) =>
      var row := t.candidates[id];
      t.(candidates := t.candidates[id := row.(
        finding := Refreshed(row.finding, finding), previouslyRemoved := previouslyRemoved,
            work := if row.work.Some? then row.work else work)])
    case None =>
      t.(candidates := t.candidates[t.nextCandidate := Candidate(q, finding, previouslyRemoved, Pending, false, work)],
         nextCandidate := t.nextCandidate + 1)
  }

  function InsertRoute(t: Tables, route: Route): Tables {
    t.(routes := t.routes[t.nextRoute := route], nextRoute := t.nextRoute + 1)
  }

  function Supersede(candidates: Candidates, user: UserId, author: AuthorId, below: int): Candidates
  {
    map i | i in candidates ::
      var c := candidates[i];
      if c.question.user == user && c.question.author == author && c.status == Pending && c.question.generation < below
      then c.(status := Superseded) else c
  }

  datatype Evidence = Evidence(key: RouteKey, provenance: Provenance, work: Option<WorkId>, finding: Finding)

  datatype Outcome =
    | Attached | AlreadyActive | Upgraded | ParkedCollision | ParkedTombstoned | ParkedContradiction

  function GuardOutcome(t: Tables, user: UserId, author: AuthorId, key: RouteKey): Outcome
    requires Valid(t)
  {
    match FindRoute(t.routes, user, key)
    case Some(id) =>
      if t.routes[id].author != author then ParkedCollision
      else if t.routes[id].removed then ParkedTombstoned
      else if t.routes[id].provenance == LegacyUnguarded then Upgraded
      else AlreadyActive
    case None =>
      if HasLegacy(t.routes, user, author, key.Provider()) then ParkedContradiction else Attached
  }

  // `apply_guarded_route` at the author's current generation.
  function Guard(t: Tables, user: UserId, author: AuthorId, e: Evidence, generation: int, now: Time): Tables
    requires Valid(t)
  {
    match GuardOutcome(t, user, author, e.key)
    case ParkedCollision =>
      Upsert(t, Question(user, author, e.key, OwnershipCollision, generation), e.finding, false, None)
    case ParkedTombstoned =>
      Upsert(t, Question(user, author, e.key, Tombstoned, generation), e.finding, true, None)
    case ParkedContradiction =>
      Upsert(t, Question(user, author, e.key, LegacyContradiction, generation), e.finding, false, None)
    case Upgraded =>
      var id := FindRoute(t.routes, user, e.key).value;
      t.(routes := t.routes[id := t.routes[id].(provenance := e.provenance, verifiedAt := Some(now))])
    case AlreadyActive =>
      var id := FindRoute(t.routes, user, e.key).value;
      t.(routes := t.routes[id := t.routes[id].(verifiedAt := Some(now))])
    case Attached =>
      InsertRoute(t, Route(user, author, e.key, false, e.provenance, e.work, Some(now), None))
  }

  predicate AttachFails(t: Tables, user: UserId, author: AuthorId, key: RouteKey)
    requires Valid(t)
  {
    var found := FindRoute(t.routes, user, key);
    found.Some? && t.routes[found.value].author != author
  }

  // `attach_route_as_user_tx`; a key another author holds is refused.
  function Attach(t: Tables, user: UserId, author: AuthorId, key: RouteKey, now: Time): Tables
    requires Valid(t)
  {
    if AttachFails(t, user, author, key) then t
    else match FindRoute(t.routes, user, key)
      case Some(id) =>
        t.(routes := t.routes[id := t.routes[id].(
          removed := false, provenance := UserPicked, verifiedAt := Some(now), removedAt := None)])
      case None =>
        InsertRoute(t, Route(user, author, key, false, UserPicked, None, Some(now), None))
  }

  predicate CanRemove(t: Tables, user: UserId, author: AuthorId, id: RouteId) {
    id in t.routes && t.routes[id].user == user && t.routes[id].author == author && !t.routes[id].removed
  }

  function Remove(t: Tables, user: UserId, author: AuthorId, id: RouteId, now: Time): Tables {
    if CanRemove(t, user, author, id)
    then t.(routes := t.routes[id := t.routes[id].(removed := true, removedAt := Some(now))])
    else t
  }

  // One staged legacy value: INSERT ... ON CONFLICT DO NOTHING.
  function Ingest(t: Tables, user: UserId, author: AuthorId, provider: Provider, raw: string): Tables
    requires Valid(t)
  {
    match Parse(provider, raw)
    case None => t
    case Some(key) =>
      if FindRoute(t.routes, user, key).Some? then t
      else InsertRoute(t, Route(user, author, key, false, LegacyUnguarded, None, None, None))
  }

  // The first statement of `fold_author_link_state_tx`.
  function Move(routes: map<RouteId, Route>, user: UserId, survivor: AuthorId, loser: AuthorId): map<RouteId, Route> {
    map i | i in routes ::
      if routes[i].user == user && routes[i].author == loser then routes[i].(author := survivor) else routes[i]
  }

  // Where a loser's candidate goes in a merge: an open question into the
  // survivor's current generation, an answered one into its own.
  function TargetOf(c: Candidate, survivor: AuthorId, generation: int): Question {
    c.question.(author := survivor, generation := if c.status == Pending then generation else c.question.generation)
  }

  // One turn of the fold: restamped, or deleted where the question is taken.
  function FoldedCandidate(rows: Candidates, survivor: AuthorId, generation: int, id: CandidateId): Candidates
    requires UniqueQuestions(rows)
  {
    if id !in rows then rows
    else
      var target := TargetOf(rows[id], survivor, generation);
      if FindCandidate(rows, target).Some? then rows - {id} else rows[id := rows[id].(question := target)]
  }

  function FoldedCandidates(rows: Candidates, survivor: AuthorId, generation: int,
      ids: seq<CandidateId>): (r: Candidates)
    requires UniqueQuestions(rows)
    ensures UniqueQuestions(r) && r.Keys <= rows.Keys
  {
    if ids == [] then rows
    else
      var front := FoldedCandidates(rows, survivor, generation, ids[..|ids| - 1]);
      FoldedCandidateIsUnique(front, survivor, generation, ids[|ids| - 1]);
      FoldedCandidate(front, survivor, generation, ids[|ids| - 1])
  }

  lemma FoldedCandidateIsUnique(rows: Candidates, survivor: AuthorId, generation: int, id: CandidateId)
    requires UniqueQuestions(rows)
    ensures UniqueQuestions(FoldedCandidate(rows, survivor, generation, id))
  {}

  const ByCandidateId: (CandidateId, CandidateId) -> bool := (i: CandidateId, j: CandidateId) => i <= j

  function CandidatesOf(rows: Candidates, user: UserId, author: AuthorId): (ids: seq<CandidateId>)
    ensures forall i :: i in ids <==> i in rows && rows[i].question.user == user && rows[i].question.author == author
    ensures forall i, j :: 0 <= i < j < |ids| ==> ids[i] < ids[j]
  {
    var mine := set i | i in rows && rows[i].question.user == user && rows[i].question.author == author;
    InOrder(mine, ByCandidateId)
  }

  // `fold_author_link_state_tx` on these two tables; `generation` is the
  // survivor's current one.
  function FoldedTables(t: Tables, user: UserId, survivor: AuthorId, loser: AuthorId, generation: int): Tables
    requires UniqueQuestions(t.candidates)
  {
    t.(routes := Move(t.routes, user, survivor, loser),
       candidates := FoldedCandidates(t.candidates, survivor, generation, CandidatesOf(t.candidates, user, loser)))
  }

  // A pending candidate of the author's current generation.
  predicate Answerable(t: Tables, user: UserId, id: CandidateId, generation: int) {
    && id in t.candidates && t.candidates[id].question.user == user
    && t.candidates[id].status == Pending && t.candidates[id].question.generation == generation
  }

  predicate CanPick(t: Tables, user: UserId, id: CandidateId, generation: int)
    requires Valid(t)
  {
    Answerable(t, user, id, generation)
    && !AttachFails(t, user, t.candidates[id].question.author, t.candidates[id].question.key)
  }

  function Answer(candidates: Candidates, id: CandidateId): Candidates
    requires id in candidates
  {
    var q := candidates[id].question;
    map i | i in candidates ::
      var c := candidates[i];
      if i == id then c.(status := Picked)
      else if c.question.user == q.user && c.question.author == q.author && c.question.generation == q.generation
              && c.status == Pending
      then c.(status := Superseded)
      else c
  }

  // `pick_candidate_as_user`.
  function Pick(t: Tables, user: UserId, id: CandidateId, generation: int, now: Time): Tables
    requires Valid(t)
  {
    if !CanPick(t, user, id, generation) then t
    else
      var q := t.candidates[id].question;
      Attach(t, user, q.author, q.key, now).(candidates := Answer(t.candidates, id))
  }

  function Dismiss(t: Tables, user: UserId, id: CandidateId, generation: int): Tables {
    if Answerable(t, user, id, generation)
    then t.(candidates := t.candidates[id := t.candidates[id].(status := Dismissed)])
    else t
  }

  function RevokeAll(candidates: Candidates, user: UserId, author: AuthorId): Candidates
  {
    map i | i in candidates ::
      var c := candidates[i];
      if c.question.user == user && c.question.author == author && c.status == Dismissed then c.(revoked := true) else c
  }

  // A candidate as the worker passes it to `record_candidates`.
  datatype Proposal = Proposal(
    author: AuthorId, key: RouteKey, reason: Reason, generation: int, finding: Finding, work: Option<WorkId>)

  function RecordOne(t: Tables, user: UserId, p: Proposal): Tables
    requires Valid(t)
  {
    if Silenced(t.candidates, user, p.author, p.key, p.reason) then t
    else Upsert(t, Question(user, p.author, p.key, p.reason, p.generation), p.finding,
                WasRemoved(t.routes, user, p.key), p.work)
  }

  lemma UpsertKeepsValid(t: Tables, q: Question, finding: Finding, previouslyRemoved: bool, work: Option<WorkId>)
    requires Valid(t)
    ensures Valid(Upsert(t, q, finding, previouslyRemoved, work))
  {}

  lemma RecordOneKeepsValid(t: Tables, user: UserId, p: Proposal)
    requires Valid(t)
    ensures Valid(RecordOne(t, user, p))
  {
    UpsertKeepsValid(t, Question(user, p.author, p.key, p.reason, p.generation), p.finding,
                     WasRemoved(t.routes, user, p.key), p.work);
  }

  function RecordEach(t: Tables, user: UserId, ps: seq<Proposal>): (t': Tables)
    requires Valid(t)
    ensures Valid(t')
  {
    if ps == [] then t
    else
      var front := RecordEach(t, user, ps[..|ps| - 1]);
      RecordOneKeepsValid(front, user, ps[|ps| - 1]);
      RecordOne(front, user, ps[|ps| - 1])
  }

  function Newest(ps: seq<Proposal>): int
    requires ps != []
  {
    if |ps| == 1 then ps[0].generation else Max(Newest(ps[..|ps| - 1]), ps[|ps| - 1].generation)
  }

  lemma SupersedeKeepsValid(t: Tables, user: UserId, author: AuthorId, below: int)
    requires Valid(t)
    ensures Valid(t.(candidates := Supersede(t.candidates, user, author, below)))
  {
    var after := Supersede(t.candidates, user, author, below);
    forall i | i in t.candidates ensures i in after && after[i].question == t.candidates[i].question {}
  }

  // `record_candidates` of one accepted claim; `stored` is the author's
  // evidence generation before it.
  function Record(t: Tables, user: UserId, author: AuthorId, ps: seq<Proposal>, stored: int): (t': Tables)
    requires Valid(t)
    ensures Valid(t')
  {
    if ps == [] then t
    else if Newest(ps) > stored then
      SupersedeKeepsValid(t, user, author, Newest(ps));
      RecordEach(t.(candidates := Supersede(t.candidates, user, author, Newest(ps))), user, ps)
    else RecordEach(t, user, ps)
  }

  // ------------------------------------------------------------------
  // Every transaction keeps both unique keys
  // ------------------------------------------------------------------

  datatype Event =
    | Guarded(user: UserId, author: AuthorId, evidence: Evidence, generation: int)
    | Rejected(question: Question, finding: Finding)
    | Ingested(user: UserId, author: AuthorId, provider: Provider, raw: string)
    | Merged(user: UserId, survivor: AuthorId, loser: AuthorId, generation: int)
    | AttachedByUser(user: UserId, author: AuthorId, key: RouteKey)
    | RemovedByUser(user: UserId, author: AuthorId, id: RouteId)
    | PickedByUser(user: UserId, candidate: CandidateId, generation: int)
    | DismissedByUser(user: UserId, candidate: CandidateId, generation: int)
    | Revoked(user: UserId, author: AuthorId)
    | GenerationBegun(user: UserId, author: AuthorId, generation: int)
    | Recorded(user: UserId, author: AuthorId, proposals: seq<Proposal>, stored: int)

  datatype Moment = Moment(now: Time, event: Event)

  function Step(t: Tables, m: Moment): Tables
    requires Valid(t)
  {
    match m.event
    case Guarded(user, author, evidence, generation) => Guard(t, user, author, evidence, generation, m.now)
    case Rejected(question, finding) => Upsert(t, question, finding, false, None)
    case Ingested(user, author, provider, raw) => Ingest(t, user, author, provider, raw)
    case Merged(user, survivor, loser, generation) =>
      if survivor == loser then t else FoldedTables(t, user, survivor, loser, generation)
    case AttachedByUser(user, author, key) => Attach(t, user, author, key, m.now)
    case RemovedByUser(user, author, id) => Remove(t, user, author, id, m.now)
    case PickedByUser(user, candidate, generation) => Pick(t, user, candidate, generation, m.now)
    case DismissedByUser(user, candidate, generation) => Dismiss(t, user, candidate, generation)
    case Revoked(user, author) => t.(candidates := RevokeAll(t.candidates, user, author))
    case GenerationBegun(user, author, generation) =>
      t.(candidates := Supersede(t.candidates, user, author, generation))
    case Recorded(user, author, proposals, stored) => Record(t, user, author, proposals, stored)
  }

  // Same ids, same questions.
  ghost predicate SameQuestions(c: map<CandidateId, Candidate>, d: map<CandidateId, Candidate>) {
    c.Keys == d.Keys && forall i :: i in c ==> c[i].question == d[i].question
  }

  lemma SameQuestionsUnique(c: map<CandidateId, Candidate>, d: map<CandidateId, Candidate>)
    requires SameQuestions(c, d) && UniqueQuestions(c)
    ensures UniqueQuestions(d)
  {}

  lemma AttachKeepsValid(t: Tables, user: UserId, author: AuthorId, key: RouteKey, now: Time)
    requires Valid(t)
    ensures Valid(Attach(t, user, author, key, now))
    ensures Attach(t, user, author, key, now).candidates == t.candidates
    ensures Attach(t, user, author, key, now).nextCandidate == t.nextCandidate
  {}

  lemma GuardKeepsValid(t: Tables, user: UserId, author: AuthorId, e: Evidence, generation: int, now: Time)
    requires Valid(t)
    ensures Valid(Guard(t, user, author, e, generation, now))
  {
    match GuardOutcome(t, user, author, e.key) {
      case ParkedCollision =>
        UpsertKeepsValid(t, Question(user, author, e.key, OwnershipCollision, generation), e.finding, false, None);
      case ParkedTombstoned =>
        UpsertKeepsValid(t, Question(user, author, e.key, Tombstoned, generation), e.finding, true, None);
      case ParkedContradiction =>
        UpsertKeepsValid(t, Question(user, author, e.key, LegacyContradiction, generation), e.finding, false, None);
      case _ =>
    }
  }

  lemma FoldKeepsValid(t: Tables, user: UserId, survivor: AuthorId, loser: AuthorId, generation: int)
    requires Valid(t)
    ensures Valid(FoldedTables(t, user, survivor, loser, generation))
  {}

  lemma StepKeepsValid(t: Tables, m: Moment)
    requires Valid(t)
    ensures Valid(Step(t, m))
  {
    match m.event {
      case Guarded(user, author, evidence, generation) => GuardKeepsValid(t, user, author, evidence, generation, m.now);
      case Rejected(question, finding) => UpsertKeepsValid(t, question, finding, false, None);
      case Merged(user, survivor, loser, generation) => FoldKeepsValid(t, user, survivor, loser, generation);
      case AttachedByUser(user, author, key) => AttachKeepsValid(t, user, author, key, m.now);
      case PickedByUser(user, candidate, generation) =>
        if CanPick(t, user, candidate, generation) {
          var q := t.candidates[candidate].question;
          AttachKeepsValid(t, user, q.author, q.key, m.now);
          SameQuestionsUnique(t.candidates, Answer(t.candidates, candidate));
        }
      case Revoked(user, author) => SameQuestionsUnique(t.candidates, RevokeAll(t.candidates, user, author));
      case GenerationBegun(user, author, generation) => SupersedeKeepsValid(t, user, author, generation);
      case _ =>
    }
  }
}
