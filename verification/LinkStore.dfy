// The author-link transactions over their tables: claim checks, guarded and
// user route writes, candidates, dismissals and legacy ingestion
// (crates/livrarr-db/src/sqlite_author_link.rs). Each method commits whole or
// returns an error with the state as it was.
module LinkStore {
  import opened Basics
  import opened RouteKeys
  import opened LinkProgress
  import opened LinkTables
  import opened AuthorNames

  datatype Error = NotFound | ClaimLost | Constraint

  datatype StagedStatus = StagedPending | Accepted | Invalid

  // A row of `author_route_legacy_staging`.
  datatype Staged = Staged(user: UserId, author: AuthorId, provider: Provider, raw: string, status: StagedStatus)

  function IngestedStatus(s: Staged): StagedStatus {
    if s.status != StagedPending then s.status
    else if Parse(s.provider, s.raw).Some? then Accepted else Invalid
  }

  // The route table after the staged rows were taken in id order.
  function IngestAll(t: Tables, staged: seq<Staged>): (t': Tables)
    requires Valid(t)
    ensures Valid(t')
  {
    if staged == [] then t
    else
      var front, s := IngestAll(t, staged[..|staged| - 1]), staged[|staged| - 1];
      IngestOne(front, s)
  }

  // A row of `author_name_legacy_staging`.
  datatype StagedName = StagedName(user: UserId, author: AuthorId, name: string, status: StagedStatus)

  function IngestedName(s: StagedName, canonicalOf: string -> string): StagedName {
    if s.status != StagedPending then s
    else s.(status := if canonicalOf(s.name) == "" then Invalid else Accepted)
  }

  function IngestNames(t: Names, canonicalOf: string -> string, staged: seq<StagedName>): (t': Names)
    requires ValidNames(t)
    ensures ValidNames(t')
  {
    if staged == [] then t
    else
      var front, s := IngestNames(t, canonicalOf, staged[..|staged| - 1]), staged[|staged| - 1];
      if s.status == StagedPending
      then Inserted(front, canonicalOf, s.user, s.author, Observation(LegacySource, s.name)) else front
  }

  // Every staged name that can be read is on record, under its author, and no
  // name that was there changes.
  lemma {:induction false} NamesAreIngested(
      t: Names, canonicalOf: string -> string, staged: seq<StagedName>, k: nat)
    requires ValidNames(t) && k < |staged|
    ensures var after := IngestNames(t, canonicalOf, staged);
            && Kept(t, after)
            && (staged[k].status == StagedPending ==>
                  OnRecord(after, canonicalOf, staged[k].user, staged[k].author,
                           Observation(LegacySource, staged[k].name), None))
  {
    var last := |staged| - 1;
    var front, after, s := IngestNames(t, canonicalOf, staged[..last]), IngestNames(t, canonicalOf, staged),
        staged[last];
    var o := Observation(LegacySource, s.name);
    if s.status == StagedPending {
      InsertedOne(front, canonicalOf, s.user, s.author, o);
    }
    if last > 0 {
      NamesAreIngested(t, canonicalOf, staged[..last], if k < last then k else 0);
    }
    KeptOnward(t, front, after, canonicalOf, staged[k].user, staged[k].author,
               Observation(LegacySource, staged[k].name), None);
  }

  lemma InsertedOne(t: Names, canonicalOf: string -> string, user: UserId, author: AuthorId, o: Observation)
    requires ValidNames(t)
    ensures var after := Inserted(t, canonicalOf, user, author, o);
            Kept(t, after) && OnRecord(after, canonicalOf, user, author, o, None)
  {
    var key := NameKey(user, author, o.source, canonicalOf(Trim(o.name)));
    match FindName(t.rows, key) {
      case Some(id) => assert t.rows[id].key == key;
      case None =>
        if Trim(o.name) != "" && key.canonical != "" {
          assert Inserted(t, canonicalOf, user, author, o).rows[t.nextId].key == key;
        }
    }
  }

  // The name of guarded evidence that landed on a route.
  function GuardedNames(
      t: Names, canonicalOf: string -> string, user: UserId, author: AuthorId, key: RouteKey, name: string,
      outcome: Outcome): (t': Names)
    requires ValidNames(t)
    ensures ValidNames(t')
  {
    if outcome in {Attached, AlreadyActive, Upgraded}
    then Inserted(t, canonicalOf, user, author, Observation(SourceFor(key.Provider()), name)) else t
  }

  ghost predicate HasRoute(t: Tables, user: UserId, key: RouteKey) {
    exists i :: i in t.routes && t.routes[i].user == user && t.routes[i].key == key
  }

  // No pending value that parses is lost: its tuple has a row afterwards,
  // whoever's it is; and ingestion changes no row that was there.
  lemma {:induction false} IngestionLosesNothing(t: Tables, staged: seq<Staged>, k: nat, id: RouteId)
    requires Valid(t) && k < |staged| && staged[k].status == StagedPending
    requires Parse(staged[k].provider, staged[k].raw).Some?
    ensures HasRoute(IngestAll(t, staged), staged[k].user, Parse(staged[k].provider, staged[k].raw).value)
    ensures id in t.routes ==> id in IngestAll(t, staged).routes && IngestAll(t, staged).routes[id] == t.routes[id]
  {
    var last, key := |staged| - 1, Parse(staged[k].provider, staged[k].raw).value;
    var front := IngestAll(t, staged[..last]);
    IngestKeepsRows(t, staged[..last], id);
    if k < last {
      IngestionLosesNothing(t, staged[..last], k, id);
      RouteStays(front, staged[last], staged[k].user, key);
    } else {
      RouteLands(front, staged[k]);
    }
  }

  function IngestOne(t: Tables, s: Staged): Tables
    requires Valid(t)
  {
    if s.status == StagedPending then Ingest(t, s.user, s.author, s.provider, s.raw) else t
  }

  lemma RouteStays(t: Tables, s: Staged, user: UserId, key: RouteKey)
    requires Valid(t) && HasRoute(t, user, key)
    ensures HasRoute(IngestOne(t, s), user, key)
  {
    var i :| i in t.routes && t.routes[i].user == user && t.routes[i].key == key;
    assert IngestOne(t, s).routes[i] == t.routes[i];
  }

  lemma RouteLands(t: Tables, s: Staged)
    requires Valid(t) && s.status == StagedPending && Parse(s.provider, s.raw).Some?
    ensures HasRoute(IngestOne(t, s), s.user, Parse(s.provider, s.raw).value)
  {
    var key := Parse(s.provider, s.raw).value;
    match FindRoute(t.routes, s.user, key) {
      case Some(i) => assert IngestOne(t, s).routes[i].key == key;
      case None => assert IngestOne(t, s).routes[t.nextRoute].key == key;
    }
  }

  lemma {:induction false} IngestKeepsRows(t: Tables, staged: seq<Staged>, id: RouteId)
    requires Valid(t)
    ensures id in t.routes ==> id in IngestAll(t, staged).routes && IngestAll(t, staged).routes[id] == t.routes[id]
  {
    if staged != [] {
      IngestKeepsRows(t, staged[..|staged| - 1], id);
    }
  }

  // `rederive_progress_tx`: None leaves the state alone.
  function Rederived(t: Tables, user: UserId, author: AuthorId, generation: int): Option<LinkState> {
    if HasOpenQuestion(t, user, author, generation) then Some(NeedsReview)
    else if HasActiveRoute(t, user, author) then Some(Linked)
    else None
  }

  function GenerationOf(rows: Rows, author: AuthorId): int {
    if author in rows then rows[author].evidence else 0
  }

  function RederiveRows(rows: Rows, t: Tables, user: UserId, author: AuthorId): Rows {
    if author !in rows then rows
    else match Rederived(t, user, author, rows[author].evidence)
      case None => rows
      case Some(state) => rows[author := rows[author].(state := state)]
  }

  predicate HasOpenQuestion(t: Tables, user: UserId, author: AuthorId, generation: int) {
    exists i :: i in t.candidates && t.candidates[i].question.user == user && t.candidates[i].question.author == author
                && t.candidates[i].status == Pending && t.candidates[i].question.generation == generation
  }

  predicate HasActiveRoute(t: Tables, user: UserId, author: AuthorId) {
    exists i :: i in t.routes && t.routes[i].user == user && t.routes[i].author == author && !t.routes[i].removed
  }

  // What the author's state says of the tables: an open question of the current
  // generation comes before a route, and with neither the old state stands.
  ghost predicate SaysWhatIs(before: Rows, after: Rows, t: Tables, user: UserId, author: AuthorId) {
    && after.Keys == before.Keys && (forall a :: a in before && a != author ==> after[a] == before[a])
    && (author in before ==>
          var was, state := before[author], after[author].state;
          && after[author] == was.(state := state)
          && (state == NeedsReview <==>
                HasOpenQuestion(t, user, author, was.evidence)
                || (was.state == NeedsReview && !HasActiveRoute(t, user, author)))
          && (state == Linked <==>
                !HasOpenQuestion(t, user, author, was.evidence)
                && (HasActiveRoute(t, user, author) || was.state == Linked))
          && (state != was.state ==> state == NeedsReview || state == Linked))
  }

  // An accepted pick always ends with the author linked: it leaves no question
  // of the generation open and its route active.
  lemma PickEndsLinked(t: Tables, rows: Rows, user: UserId, id: CandidateId, now: Time)
    requires Valid(t) && id in t.candidates && t.candidates[id].question.author in rows
    requires var q := t.candidates[id].question;
             q.generation == GenerationOf(rows, q.author) && CanPick(t, user, id, q.generation)
    ensures var q := t.candidates[id].question;
            RederiveRows(rows, Pick(t, user, id, q.generation, now), user, q.author)[q.author].state == Linked
  {
    var q := t.candidates[id].question;
    var after := Pick(t, user, id, q.generation, now);
    AttachKeepsValid(t, user, q.author, q.key, now);
    var found := FindRoute(t.routes, user, q.key);
    var k := if found.Some? then found.value else t.nextRoute;
    assert after.routes[k].author == q.author && !after.routes[k].removed;
    assert !HasOpenQuestion(after, user, q.author, q.generation);
  }

  // Removing a route never says that the author has none: without another
  // active route or an open question the state stays what it was.
  lemma RemovedLastStaysLinked(t: Tables, rows: Rows, user: UserId, author: AuthorId, id: RouteId, now: Time)
    requires CanRemove(t, user, author, id) && author in rows && rows[author].state == Linked
    ensures var after := Remove(t, user, author, id, now);
            RederiveRows(rows, after, user, author)[author].state == Linked
            <==> !HasOpenQuestion(t, user, author, rows[author].evidence)
  {
    var after := Remove(t, user, author, id, now);
    assert HasOpenQuestion(after, user, author, rows[author].evidence)
      <==> HasOpenQuestion(t, user, author, rows[author].evidence);
  }

  class LinkStore {
    const leases: ProgressTable
    const names: NameTable
    var owners: map<AuthorId, UserId>
    var routes: map<RouteId, Route>
    var nextRoute: RouteId
    var candidates: map<CandidateId, Candidate>
    var nextCandidate: CandidateId
    var staging: seq<Staged>
    var stagedNames: seq<StagedName>

    constructor (
        leases: ProgressTable, names: NameTable, owners: map<AuthorId, UserId>, staging: seq<Staged>,
        stagedNames: seq<StagedName>)
      ensures this.leases == leases && this.names == names && this.owners == owners
      ensures this.staging == staging && this.stagedNames == stagedNames
      ensures Current() == Tables(map[], 1, map[], 1) && Valid(Current())
    {
      this.leases, this.names, this.owners := leases, names, owners;
      this.staging, this.stagedNames := staging, stagedNames;
      routes, nextRoute, candidates, nextCandidate := map[], 1, map[], 1;
    }

    function Current(): Tables
      reads `routes, `nextRoute, `candidates, `nextCandidate
    {
      Tables(routes, nextRoute, candidates, nextCandidate)
    }

    method UpsertCandidate(
        q: Question, finding: Finding, previouslyRemoved: bool, work: Option<WorkId>)
      requires Valid(Current())
      modifies `candidates, `nextCandidate
      ensures Current() == Upsert(old(Current()), q, finding, previouslyRemoved, work) && Valid(Current())
    {
      UpsertKeepsValid(Current(), q, finding, previouslyRemoved, work);
      match FindCandidate(candidates, q) {
        case Some(id) =>
          var row := candidates[id];
          candidates := candidates[id := row.(finding := Refreshed(row.finding, finding),
                                              previouslyRemoved := previouslyRemoved,
                                              work := if row.work.Some? then row.work else work)];
        case None =>
          candidates := candidates[nextCandidate := Candidate(q, finding, previouslyRemoved, Pending, false, work)];
          nextCandidate := nextCandidate + 1;
      }
    }

    // INSERT INTO author_provider_routes: refused on a taken tuple.
    method Insert(route: Route) returns (ok: bool)
      requires Valid(Current())
      modifies `routes, `nextRoute
      ensures ok <==> FindRoute(old(routes), route.user, route.key).None?
      ensures Current() == if ok then InsertRoute(old(Current()), route) else old(Current())
    {
      ok := FindRoute(routes, route.user, route.key).None?;
      if ok {
        routes, nextRoute := routes[nextRoute := route], nextRoute + 1;
      }
    }

    method ApplyGuardedRoute(token: Option<Token>, author: AuthorId, evidence: Evidence, now: Time)
      returns (r: Result<Outcome, Error>)
      requires Valid(Current()) && ValidNames(names.Current())
      modifies `routes, `nextRoute, `candidates, `nextCandidate, names`rows, names`nextId
      ensures Valid(Current()) && ValidNames(names.Current())
      ensures r == GuardReply(old(Current()), old(owners), leases.rows, token, author, evidence.key, now)
      ensures Current() == if r.Ok?
        then Guard(old(Current()), old(owners)[author], author, evidence, GenerationOf(leases.rows, author), now)
        else old(Current())
      ensures names.Current() == if r.Ok?
        then GuardedNames(old(names.Current()), names.canonicalOf, old(owners)[author], author, evidence.key,
                          evidence.finding.name, r.value)
        else old(names.Current())
    {
      if author !in owners {
        return Err(NotFound);
      }
      var user := owners[author];
      if token.Some? {
        var held := leases.VerifyClaim(Claim(author, user, token.value, now, None, 0), now);
        if !held {
          return Err(ClaimLost);
        }
      }
      var generation := GenerationOf(leases.rows, author);
      GuardKeepsValid(Current(), user, author, evidence, generation, now);
      var outcome := ApplyEvidence(user, author, evidence, generation, now);
      if outcome in {Attached, AlreadyActive, Upgraded} {
        var landed := names.InsertVariant(
          user, author, Observation(SourceFor(evidence.key.Provider()), evidence.finding.name));
      }
      r := Ok(outcome);
    }

    // The `match` over the tuple's row.
    method ApplyEvidence(user: UserId, author: AuthorId, evidence: Evidence, generation: int, now: Time)
      returns (outcome: Outcome)
      requires Valid(Current())
      modifies `routes, `nextRoute, `candidates, `nextCandidate
      ensures outcome == GuardOutcome(old(Current()), user, author, evidence.key)
      ensures Current() == Guard(old(Current()), user, author, evidence, generation, now)
    {
      var key := evidence.key;
      match FindRoute(routes, user, key) {
        case Some(id) =>
          if routes[id].author != author {
            UpsertCandidate(Question(user, author, key, OwnershipCollision, generation), evidence.finding, false, None);
            outcome := ParkedCollision;
          } else if routes[id].removed {
            UpsertCandidate(Question(user, author, key, Tombstoned, generation), evidence.finding, true, None);
            outcome := ParkedTombstoned;
          } else if routes[id].provenance == LegacyUnguarded {
            routes := routes[id := routes[id].(provenance := evidence.provenance, verifiedAt := Some(now))];
            outcome := Upgraded;
          } else {
            routes := routes[id := routes[id].(verifiedAt := Some(now))];
            outcome := AlreadyActive;
          }
        case None =>
          if HasLegacy(routes, user, author, key.Provider()) {
            UpsertCandidate(Question(user, author, key, LegacyContradiction, generation), evidence.finding, false,
                None);
            outcome := ParkedContradiction;
          } else {
            var ok := Insert(Route(user, author, key, false, evidence.provenance, evidence.work, Some(now), None));
            outcome := Attached;
          }
      }
    }

    // `attach_route_as_user_tx`.
    method AttachTx(user: UserId, author: AuthorId, key: RouteKey, now: Time) returns (r: Result<(), Error>)
      requires Valid(Current()) && Canonical(key)
      modifies `routes, `nextRoute
      ensures Valid(Current())
      ensures r == AttachReply(old(Current()), owners, user, author, key)
      ensures Current() == if r.Ok? then Attach(old(Current()), user, author, key, now) else old(Current())
    {
      if author !in owners || owners[author] != user {
        return Err(NotFound);
      }
      ParseOfValue(key);
      var parsed := Parse(key.Provider(), key.Value());
      if parsed.None? {
        return Err(Constraint);
      }
      match FindRoute(routes, user, parsed.value) {
        case Some(id) =>
          if routes[id].author != author {
            return Err(Constraint);
          }
          routes := routes[id := routes[id].(removed := false, provenance := UserPicked, verifiedAt := Some(now),
                                             removedAt := None)];
        case None =>
          var ok := Insert(Route(user, author, parsed.value, false, UserPicked, None, Some(now), None));
      }
      r := Ok(());
    }

    // `rederive_progress_tx`.
    method Rederive(user: UserId, author: AuthorId)
      modifies leases`rows
      ensures SaysWhatIs(old(leases.rows), leases.rows, Current(), user, author)
      ensures leases.rows == RederiveRows(old(leases.rows), Current(), user, author)
    {
      if author in leases.rows {
        var state := Rederived(Current(), user, author, leases.rows[author].evidence);
        if state.Some? {
          leases.SetState(author, state.value);
        }
      }
    }

    method AttachRouteAsUser(user: UserId, author: AuthorId, key: RouteKey, now: Time) returns (r: Result<(), Error>)
      requires Valid(Current()) && Canonical(key)
      modifies `routes, `nextRoute, leases`rows
      ensures Valid(Current())
      ensures r == AttachReply(old(Current()), owners, user, author, key)
      ensures Current() == if r.Ok? then Attach(old(Current()), user, author, key, now) else old(Current())
      ensures leases.rows == if r.Ok? then RederiveRows(old(leases.rows), Current(), user, author) else old(leases.rows)
    {
      r := AttachTx(user, author, key, now);
      if r.Ok? {
        Rederive(user, author);
      }
    }

    method RemoveRouteAsUser(user: UserId, author: AuthorId, id: RouteId, now: Time) returns (r: Result<(), Error>)
      requires Valid(Current())
      modifies `routes, leases`rows
      ensures Valid(Current())
      ensures r.Ok? <==> CanRemove(old(Current()), user, author, id)
      ensures Current() == Remove(old(Current()), user, author, id, now)
      ensures leases.rows == if r.Ok? then RederiveRows(old(leases.rows), Current(), user, author) else old(leases.rows)
    {
      if !CanRemove(Current(), user, author, id) {
        return Err(NotFound);
      }
      routes := routes[id := routes[id].(removed := true, removedAt := Some(now))];
      Rederive(user, author);
      r := Ok(());
    }

    method PickCandidateAsUser(user: UserId, id: CandidateId, now: Time) returns (r: Result<(), Error>)
      requires Valid(Current()) && ValidNames(names.Current())
      requires forall i :: i in candidates ==> Canonical(candidates[i].question.key)
      modifies `routes, `nextRoute, `candidates, leases`rows, names`rows, names`nextId
      ensures Valid(Current()) && ValidNames(names.Current())
      ensures r == PickReply(old(Current()), owners, old(leases.rows), user, id)
      ensures r.Err? ==> Current() == old(Current()) && leases.rows == old(leases.rows)
      ensures r.Ok? ==>
                var q := old(candidates)[id].question;
                && Current() == Pick(old(Current()), user, id, q.generation, now)
                && leases.rows == RederiveRows(old(leases.rows), Current(), user, q.author)
      ensures names.Current() == if r.Ok?
        then var c := old(candidates)[id];
             PickedNames(old(names.Current()), names.canonicalOf, user, c.question.author, c.question.key.Provider(),
                         c.finding.name, Alternates(c.finding))
        else old(names.Current())
    {
      if !(id in candidates && candidates[id].question.user == user && candidates[id].status == Pending) {
        return Err(NotFound);
      }
      var q := candidates[id].question;
      if q.generation != GenerationOf(leases.rows, q.author) {
        return Err(NotFound);
      }
      r := AttachTx(user, q.author, q.key, now);
      if r.Ok? {
        SameQuestionsUnique(candidates, Answer(candidates, id));
        var finding := candidates[id].finding;
        candidates := Answer(candidates, id);
        names.KeepPickedNames(user, q.author, q.key.Provider(), finding.name, Alternates(finding));
        Rederive(user, q.author);
      }
    }

    method DismissCandidateAsUser(user: UserId, id: CandidateId) returns (r: Result<(), Error>)
      requires Valid(Current())
      modifies `candidates, leases`rows
      ensures Valid(Current())
      ensures r.Ok? <==> CanAnswer(old(Current()), old(leases.rows), user, id)
      ensures r.Err? ==> Current() == old(Current()) && leases.rows == old(leases.rows)
      ensures r.Ok? ==>
                var q := old(candidates)[id].question;
                && Current() == Dismiss(old(Current()), user, id, q.generation)
                && leases.rows == RederiveRows(old(leases.rows), Current(), user, q.author)
    {
      if !(id in candidates && candidates[id].question.user == user && candidates[id].status == Pending) {
        return Err(NotFound);
      }
      var q := candidates[id].question;
      if q.generation != GenerationOf(leases.rows, q.author) {
        return Err(NotFound);
      }
      candidates := candidates[id := candidates[id].(status := Dismissed)];
      Rederive(user, q.author);
      r := Ok(());
    }

    method RevokeDismissalsAndReplay(user: UserId, author: AuthorId, now: Time) returns (r: Result<(), Error>)
      requires Valid(Current())
      modifies `candidates, leases`rows
      ensures Valid(Current())
      ensures r.Ok? <==> author in owners && owners[author] == user
      ensures r.Err? ==> Current() == old(Current()) && leases.rows == old(leases.rows)
      ensures r.Ok? ==>
                && Current() == old(Current()).(candidates := RevokeAll(old(candidates), user, author))
                && Links(leases.rows, leases.nextToken)
                   == LinkProgress.Step(Links(old(leases.rows), leases.nextToken),
                                        LinkProgress.Moment(now, Revoke(author, user)))
    {
      if author !in owners || owners[author] != user {
        return Err(NotFound);
      }
      SameQuestionsUnique(candidates, RevokeAll(candidates, user, author));
      candidates := RevokeAll(candidates, user, author);
      leases.Replay(author, user, now);
      r := Ok(());
    }

    // `begin_evidence_generation`: older open questions close with it.
    method BeginEvidenceGeneration(claim: Claim, generation: int, now: Time) returns (r: Result<(), Error>)
      requires Valid(Current())
      modifies `candidates, leases`rows
      ensures Valid(Current())
      ensures r.Ok? <==> HoldsIn(old(leases.rows), claim, now)
      ensures Links(leases.rows, leases.nextToken)
           == LinkProgress.Step(Links(old(leases.rows), leases.nextToken),
                                LinkProgress.Moment(now, Begin(claim, generation)))
      ensures Current() == if r.Ok?
        then old(Current()).(candidates := Supersede(old(candidates), claim.user, claim.author, generation))
        else old(Current())
    {
      var held := leases.BeginEvidenceGeneration(claim, generation, now);
      if !held {
        return Err(ClaimLost);
      }
      SupersedeKeepsValid(Current(), claim.user, claim.author, generation);
      candidates := Supersede(candidates, claim.user, claim.author, generation);
      r := Ok(());
    }

    method RecordCandidates(claim: Claim, ps: seq<Proposal>, now: Time) returns (r: Result<(), Error>)
      requires Valid(Current())
      modifies `candidates, `nextCandidate, leases`rows
      ensures Valid(Current())
      ensures r.Ok? <==> HoldsIn(old(leases.rows), claim, now)
      ensures r.Err? ==> Current() == old(Current()) && leases.rows == old(leases.rows)
      ensures r.Ok? ==>
                && Current() == Record(old(Current()), claim.user, claim.author, ps,
                                       GenerationOf(old(leases.rows), claim.author))
                && Links(leases.rows, leases.nextToken)
                   == if ps == [] then Links(old(leases.rows), leases.nextToken)
                      else LinkProgress.Step(Links(old(leases.rows), leases.nextToken),
                                             LinkProgress.Moment(now, Write(claim, Newest(ps))))
    {
      var held := leases.VerifyClaim(claim, now);
      if !held {
        return Err(ClaimLost);
      }
      if ps == [] {
        return Ok(());
      }
      var generation := Newest(ps);
      var stored := GenerationOf(leases.rows, claim.author);
      leases.RaiseEvidence(claim, generation, now);
      if generation > stored {
        SupersedeKeepsValid(Current(), claim.user, claim.author, generation);
        candidates := Supersede(candidates, claim.user, claim.author, generation);
      }
      RecordAll(claim.user, ps);
      r := Ok(());
    }

    // `for candidate in &candidates`.
    method RecordAll(user: UserId, ps: seq<Proposal>)
      requires Valid(Current())
      modifies `candidates, `nextCandidate
      ensures Current() == RecordEach(old(Current()), user, ps)
    {
      ghost var before := Current();
      for n := 0 to |ps|
        invariant Valid(Current()) && Current() == RecordEach(before, user, ps[..n])
      {
        assert ps[..n + 1][..n] == ps[..n];
        var p := ps[n];
        if !Silenced(candidates, user, p.author, p.key, p.reason) {
          UpsertCandidate(Question(user, p.author, p.key, p.reason, p.generation), p.finding,
                          WasRemoved(routes, user, p.key), p.work);
        }
      }
      assert ps[..|ps|] == ps;
    }

    // The claimless seam: a Goodreads key that the name guard rejected. The
    // check that the evidence is a Readarr import's is the caller's type here.
    method RecordReadarrRejection(user: UserId, author: AuthorId, key: RouteKey, finding: Finding)
      returns (r: Result<(), Error>)
      requires Valid(Current()) && ValidNames(names.Current())
      modifies `candidates, `nextCandidate, names`rows, names`nextId
      ensures Valid(Current()) && ValidNames(names.Current())
      ensures names.Current() == if r.Ok?
        then Inserted(old(names.Current()), names.canonicalOf, user, author, Observation(ReadarrSource, finding.name))
        else old(names.Current())
      ensures r == if !key.GoodreadsKey? then Err(Constraint)
                   else if author in owners && owners[author] == user then Ok(()) else Err(NotFound)
      ensures Current() == if r.Ok?
        then Upsert(old(Current()), Question(user, author, key, ReadarrNameGuardFailed,
                                             GenerationOf(leases.rows, author)), finding, false, None)
        else old(Current())
    {
      if !key.GoodreadsKey? {
        return Err(Constraint);
      }
      if author !in owners || owners[author] != user {
        return Err(NotFound);
      }
      var landed := names.InsertVariant(user, author, Observation(ReadarrSource, finding.name));
      UpsertCandidate(Question(user, author, key, ReadarrNameGuardFailed, GenerationOf(leases.rows, author)),
                      finding, false, None);
      r := Ok(());
    }

    // `ingest_legacy_routes`: staged routes, staged names, and a progress row
    // for every author that has none.
    method IngestLegacyRoutes(now: Time)
      requires Valid(Current()) && ValidNames(names.Current())
      modifies `routes, `nextRoute, `staging, `stagedNames, names`rows, names`nextId, leases`rows
      ensures Valid(Current()) && Current() == IngestAll(old(Current()), old(staging))
      ensures ValidNames(names.Current())
      ensures names.Current() == IngestNames(old(names.Current()), names.canonicalOf, old(stagedNames))
      ensures |staging| == |old(staging)| && |stagedNames| == |old(stagedNames)|
      ensures forall k :: 0 <= k < |staging| ==>
                staging[k] == old(staging)[k].(status := IngestedStatus(old(staging)[k]))
      ensures forall k :: 0 <= k < |stagedNames| ==>
                stagedNames[k] == IngestedName(old(stagedNames)[k], names.canonicalOf)
      ensures leases.rows == Enrolled(old(leases.rows), owners, now)
    {
      IngestRoutes();
      IngestStagedNames();
      leases.Enroll(owners, now);
    }

    // Batches of at most LEGACY_BATCH pending rows, in id order; each batch is a
    // transaction of its own, so the loop can stop between any two.
    method IngestRoutes()
      requires Valid(Current())
      modifies `routes, `nextRoute, `staging
      ensures Valid(Current()) && Current() == IngestAll(old(Current()), old(staging))
      ensures |staging| == |old(staging)|
      ensures forall k :: 0 <= k < |staging| ==>
                staging[k] == old(staging)[k].(status := IngestedStatus(old(staging)[k]))
    {
      ghost var before, staged := Current(), staging;
      var n := 0;
      while n < |staging|
        invariant n <= |staged| && RoutesTo(before, staged, n)
        decreases |staged| - n
      {
        n := IngestBatch(n, before, staged);
      }
      assert staged[..|staged|] == staged;
    }

    ghost predicate RoutesTo(before: Tables, staged: seq<Staged>, n: nat)
      reads this
      requires n <= |staged| && Valid(before)
    {
      && Valid(Current()) && Current() == IngestAll(before, staged[..n])
      && |staging| == |staged| && staging[n..] == staged[n..]
      && forall k :: 0 <= k < n ==> staging[k] == staged[k].(status := IngestedStatus(staged[k]))
    }

    method IngestBatch(from: nat, ghost before: Tables, ghost staged: seq<Staged>) returns (n: nat)
      requires from < |staged| && Valid(before) && RoutesTo(before, staged, from)
      modifies `routes, `nextRoute, `staging
      ensures from < n <= |staged| && RoutesTo(before, staged, n)
    {
      n := from;
      var taken := 0;
      while n < |staging| && taken < LEGACY_BATCH
        invariant from <= n <= |staged| && RoutesTo(before, staged, n)
        invariant n == from ==> taken == 0
        decreases |staged| - n
      {
        taken := taken + (if staging[n].status == StagedPending then 1 else 0);
        IngestNext(n, before, staged);
        n := n + 1;
      }
    }

    method IngestNext(n: nat, ghost before: Tables, ghost staged: seq<Staged>)
      requires n < |staged| && Valid(before) && RoutesTo(before, staged, n)
      modifies `routes, `nextRoute, `staging
      ensures RoutesTo(before, staged, n + 1)
    {
      assert staging[n] == staging[n..][0] && staged[n] == staged[n..][0];
      assert staged[..n + 1][..n] == staged[..n];
      IngestRow(n);
    }

    method IngestStagedNames()
      requires ValidNames(names.Current())
      modifies `stagedNames, names`rows, names`nextId
      ensures ValidNames(names.Current())
      ensures names.Current() == IngestNames(old(names.Current()), names.canonicalOf, old(stagedNames))
      ensures |stagedNames| == |old(stagedNames)|
      ensures forall k :: 0 <= k < |stagedNames| ==>
                stagedNames[k] == IngestedName(old(stagedNames)[k], names.canonicalOf)
    {
      ghost var before, staged := names.Current(), stagedNames;
      var n := 0;
      while n < |stagedNames|
        invariant n <= |staged| && NamesTo(before, staged, n)
        decreases |staged| - n
      {
        n := IngestNameBatch(n, before, staged);
      }
      assert staged[..|staged|] == staged;
    }

    ghost predicate NamesTo(before: Names, staged: seq<StagedName>, n: nat)
      reads this, names
      requires n <= |staged| && ValidNames(before)
    {
      && ValidNames(names.Current()) && names.Current() == IngestNames(before, names.canonicalOf, staged[..n])
      && |stagedNames| == |staged| && stagedNames[n..] == staged[n..]
      && forall k :: 0 <= k < n ==> stagedNames[k] == IngestedName(staged[k], names.canonicalOf)
    }

    method IngestNameBatch(from: nat, ghost before: Names, ghost staged: seq<StagedName>) returns (n: nat)
      requires from < |staged| && ValidNames(before) && NamesTo(before, staged, from)
      modifies `stagedNames, names`rows, names`nextId
      ensures from < n <= |staged| && NamesTo(before, staged, n)
    {
      n := from;
      var taken := 0;
      while n < |stagedNames| && taken < LEGACY_BATCH
        invariant from <= n <= |staged| && NamesTo(before, staged, n)
        invariant n == from ==> taken == 0
        decreases |staged| - n
      {
        taken := taken + (if stagedNames[n].status == StagedPending then 1 else 0);
        IngestNextName(n, before, staged);
        n := n + 1;
      }
    }

    method IngestNextName(n: nat, ghost before: Names, ghost staged: seq<StagedName>)
      requires n < |staged| && ValidNames(before) && NamesTo(before, staged, n)
      modifies `stagedNames, names`rows, names`nextId
      ensures NamesTo(before, staged, n + 1)
    {
      assert stagedNames[n] == stagedNames[n..][0] && staged[n] == staged[n..][0];
      assert staged[..n + 1][..n] == staged[..n];
      var s := stagedNames[n];
      if s.status == StagedPending {
        var landed := names.InsertVariant(s.user, s.author, Observation(LegacySource, s.name));
        stagedNames := stagedNames[n := IngestedName(s, names.canonicalOf)];
      }
    }

    method IngestRow(n: nat)
      requires Valid(Current()) && n < |staging|
      modifies `routes, `nextRoute, `staging
      ensures var s := old(staging)[n];
              && Current() == (if s.status == StagedPending
                               then Ingest(old(Current()), s.user, s.author, s.provider, s.raw) else old(Current()))
              && staging == old(staging)[n := s.(status := IngestedStatus(s))]
    {
      var s := staging[n];
      if s.status == StagedPending {
        match Parse(s.provider, s.raw) {
          case Some(key) =>
            var landed := Insert(Route(s.user, s.author, key, false, LegacyUnguarded, None, None, None));
            staging := staging[n := s.(status := Accepted)];
          case None =>
            staging := staging[n := s.(status := Invalid)];
        }
      }
    }
  }

  // `LEGACY_BATCH`.
  const LEGACY_BATCH := 500

  function Alternates(f: Finding): seq<string> {
    if f.alternates.Some? then f.alternates.value else []
  }

  function GuardReply(
      t: Tables, owners: map<AuthorId, UserId>, rows: Rows, token: Option<Token>, author: AuthorId, key: RouteKey,
      now: Time): Result<Outcome, Error>
    requires Valid(t)
  {
    if author !in owners then Err(NotFound)
    else if token.Some? && !HoldsIn(rows, Claim(author, owners[author], token.value, now, None, 0), now)
    then Err(ClaimLost)
    else Ok(GuardOutcome(t, owners[author], author, key))
  }

  function AttachReply(
      t: Tables, owners: map<AuthorId, UserId>, user: UserId, author: AuthorId, key: RouteKey): Result<(), Error>
    requires Valid(t)
  {
    if author !in owners || owners[author] != user then Err(NotFound)
    else if AttachFails(t, user, author, key) then Err(Constraint)
    else Ok(())
  }

  predicate CanAnswer(t: Tables, rows: Rows, user: UserId, id: CandidateId) {
    id in t.candidates && Answerable(t, user, id, GenerationOf(rows, t.candidates[id].question.author))
  }

  function PickReply(
      t: Tables, owners: map<AuthorId, UserId>, rows: Rows, user: UserId, id: CandidateId): Result<(), Error>
    requires Valid(t)
  {
    if !CanAnswer(t, rows, user, id) then Err(NotFound)
    else AttachReply(t, owners, user, t.candidates[id].question.author, t.candidates[id].question.key)
  }
}
