// The per-key attempts of one evidence generation
// (crates/livrarr-db/src/sqlite_author_link.rs:1265-1394, 1484-1565): opened
// and taken by `prepare_key_attempts`, settled one by one by
// `complete_key_attempt`, and read back as a credit total and a retry list.
module LinkAttempts {
  import opened Basics
  import opened RouteKeys
  import opened Sorting
  import opened LinkProgress
  import Fingerprint

  type AttemptId = int
  type WorkId = int

  datatype AttemptState =
    // `pending` and `running` of the schema first.
    | Waiting | InFlight | Succeeded | Retryable | SkippedNotConfigured | SkippedPermanent | ParkedLayoutDrift

  // Which attempts a claim's generation is about.
  datatype Scope = Scope(user: UserId, author: AuthorId, generation: int)

  datatype WorkKey = WorkKey(work: WorkId, provider: Provider, route: string)

  datatype Attempt = Attempt(
    scope: Scope, key: WorkKey, state: AttemptState, token: Option<Token>, count: nat, nextAt: Option<Time>,
    credits: nat)
  {
    predicate Terminal() {
      state in {Succeeded, SkippedNotConfigured, SkippedPermanent, ParkedLayoutDrift}
    }

    // Over for this pass: never again, or at a known later time.
    predicate Settled() {
      Terminal() || (state == Retryable && nextAt.Some?)
    }

    // The WHERE clause of the taking UPDATE.
    predicate Open(now: Time) {
      state == Waiting || state == InFlight || (state == Retryable && nextAt.Some? && nextAt.value <= now)
    }

    predicate OwnedBy(claim: Claim) {
      state == InFlight && token == Some(claim.token)
    }
  }

  datatype Attempts = Attempts(rows: map<AttemptId, Attempt>, nextId: AttemptId)

  // UNIQUE(user_id, author_id, evidence_generation, work_id, provider, work_route).
  ghost predicate UniqueAttempts(rows: map<AttemptId, Attempt>) {
    forall i, j :: i in rows && j in rows && i != j ==> !(rows[i].scope == rows[j].scope && rows[i].key == rows[j].key)
  }

  ghost predicate Valid(t: Attempts) {
    && UniqueAttempts(t.rows)
    && (forall i :: i in t.rows ==> i < t.nextId)
    && forall i :: i in t.rows ==> (t.rows[i].state == Retryable ==> t.rows[i].nextAt.Some?)
  }

  // `AuthorKeyAttemptOutcome`; error texts are not kept.
  datatype Outcome =
    | Success | Retry(at: Time) | NotConfigured | Permanent | LayoutDrift

  function Completed(row: Attempt, outcome: Outcome, credits: nat): Attempt {
    var after := row.(token := None, count := row.count + 1, credits := credits);
    match outcome
    case Success => after.(state := Succeeded, nextAt := None)
    case Retry(at) => after.(state := Retryable, nextAt := Some(at))
    case NotConfigured => after.(state := SkippedNotConfigured, nextAt := None)
    case Permanent => after.(state := SkippedPermanent, nextAt := None)
    case LayoutDrift => after.(state := ParkedLayoutDrift, nextAt := None)
  }

  // ------------------------------------------------------------------
  // Preparing
  // ------------------------------------------------------------------

  predicate WorkKeyLe(a: WorkKey, b: WorkKey) {
    if a.work != b.work then a.work < b.work
    else Fingerprint.KeyLe((a.provider, a.route), (b.provider, b.route))
  }

  function Trimmed(keys: seq<WorkKey>): seq<WorkKey> {
    if keys == [] then []
    else
      var last := keys[|keys| - 1];
      Trimmed(keys[..|keys| - 1]) + (if Trim(last.route) == "" then [] else [last.(route := Trim(last.route))])
  }

  // `Vec::dedup`: drops an element equal to the one before it.
  function Dedup(keys: seq<WorkKey>): (r: seq<WorkKey>)
    ensures forall k :: k in r <==> k in keys
  {
    if keys == [] then []
    else
      var front, last := Dedup(keys[..|keys| - 1]), keys[|keys| - 1];
      assert forall k :: k in keys <==> k in keys[..|keys| - 1] || k == last;
      if |keys| > 1 && keys[|keys| - 2] == last then front else front + [last]
  }

  function CanonicalKeys(keys: seq<WorkKey>): seq<WorkKey> {
    Dedup(Sort(Trimmed(keys), WorkKeyLe))
  }

  predicate Stored(rows: map<AttemptId, Attempt>, scope: Scope, key: WorkKey) {
    exists i :: i in rows && rows[i].scope == scope && rows[i].key == key
  }

  // INSERT ... ON CONFLICT DO NOTHING.
  function Opened(t: Attempts, scope: Scope, key: WorkKey): Attempts {
    if Stored(t.rows, scope, key) then t
    else Attempts(t.rows[t.nextId := Attempt(scope, key, Waiting, None, 0, None, 0)], t.nextId + 1)
  }

  function OpenedAll(t: Attempts, scope: Scope, keys: seq<WorkKey>): Attempts {
    if keys == [] then t else Opened(OpenedAll(t, scope, keys[..|keys| - 1]), scope, keys[|keys| - 1])
  }

  function TakeOpen(rows: map<AttemptId, Attempt>, scope: Scope, token: Token, now: Time): map<AttemptId, Attempt> {
    map i | i in rows ::
      if rows[i].scope == scope && rows[i].Open(now)
      then rows[i].(state := InFlight, token := Some(token)) else rows[i]
  }

  function ScopeOf(claim: Claim, generation: int): Scope {
    Scope(claim.user, claim.author, generation)
  }

  function Prepared(t: Attempts, claim: Claim, generation: int, keys: seq<WorkKey>, now: Time): Attempts {
    var mid := OpenedAll(t, ScopeOf(claim, generation), CanonicalKeys(keys));
    mid.(rows := TakeOpen(mid.rows, ScopeOf(claim, generation), claim.token, now))
  }

  // The rows that the worker is handed.
  function Handed(rows: map<AttemptId, Attempt>, claim: Claim, generation: int): set<AttemptId> {
    set i | i in rows && rows[i].scope == ScopeOf(claim, generation) && rows[i].OwnedBy(claim)
  }

  function Outstanding(rows: map<AttemptId, Attempt>, scope: Scope): set<AttemptId> {
    set i | i in rows && rows[i].scope == scope && rows[i].state == Retryable && rows[i].nextAt.Some?
  }

  function InScope(rows: map<AttemptId, Attempt>, scope: Scope): set<AttemptId> {
    set i | i in rows && rows[i].scope == scope
  }

  // Row orders of the three SELECTs; ids that are no rows compare by number.
  function ByKey(rows: map<AttemptId, Attempt>): (AttemptId, AttemptId) -> bool {
    (i, j) => i in rows && j in rows && WorkKeyLe(rows[i].key, rows[j].key)
  }

  function ByDeadline(rows: map<AttemptId, Attempt>): (AttemptId, AttemptId) -> bool {
    (i, j) =>
      i in rows && j in rows && rows[i].nextAt.Some? && rows[j].nextAt.Some?
      && (rows[i].nextAt.value < rows[j].nextAt.value || (rows[i].nextAt == rows[j].nextAt && i <= j))
  }

  const ById: (AttemptId, AttemptId) -> bool := (i: AttemptId, j: AttemptId) => i <= j

  lemma ByKeyIsTotal(rows: map<AttemptId, Attempt>, scope: Scope, ids: set<AttemptId>)
    requires UniqueAttempts(rows) && ids <= InScope(rows, scope)
    ensures TotalOn(ByKey(rows), ids)
  {
    var le := ByKey(rows);
    forall i, j | i in ids && j in ids
      ensures le(i, j) || le(j, i)
      ensures le(i, j) && le(j, i) ==> i == j
    {
      WorkKeyLeTotal(rows[i].key, rows[j].key);
    }
    forall i, j, k | i in ids && j in ids && k in ids && le(i, j) && le(j, k) ensures le(i, k) {
      WorkKeyLeTransitive(rows[i].key, rows[j].key, rows[k].key);
    }
  }

  lemma WorkKeyLeTotal(a: WorkKey, b: WorkKey)
    ensures WorkKeyLe(a, b) || WorkKeyLe(b, a)
    ensures WorkKeyLe(a, b) && WorkKeyLe(b, a) ==> a == b
  {
    TextLeTotal(Fingerprint.Tag(a.provider), Fingerprint.Tag(b.provider));
    TextLeTotal(a.route, b.route);
    if Fingerprint.Tag(a.provider) == Fingerprint.Tag(b.provider) {
      Fingerprint.TagInjective(a.provider, b.provider);
    }
  }

  lemma WorkKeyLeTransitive(a: WorkKey, b: WorkKey, c: WorkKey)
    requires WorkKeyLe(a, b) && WorkKeyLe(b, c)
    ensures WorkKeyLe(a, c)
  {
    if a.work == b.work == c.work {
      var s, t, u := Fingerprint.Tag(a.provider), Fingerprint.Tag(b.provider), Fingerprint.Tag(c.provider);
      if s == t == u {
        TextLeTransitive(a.route, b.route, c.route);
      } else if s != t && t != u {
        TextLeTransitive(s, t, u);
        TextLeTotal(s, t);
      }
    }
  }

  lemma ByDeadlineIsTotal(rows: map<AttemptId, Attempt>, scope: Scope)
    ensures TotalOn(ByDeadline(rows), Outstanding(rows, scope))
  {}

  // ------------------------------------------------------------------
  // The table
  // ------------------------------------------------------------------

  datatype Error = ClaimLost | NotFound

  datatype OutstandingRetry = OutstandingRetry(provider: Provider, at: Time)

  class AttemptTable {
    const leases: ProgressTable
    var rows: map<AttemptId, Attempt>
    var nextId: AttemptId

    constructor (leases: ProgressTable)
      ensures this.leases == leases && Current() == Attempts(map[], 1) && Valid(Current())
    {
      this.leases := leases;
      rows, nextId := map[], 1;
    }

    function Current(): Attempts
      reads this
    {
      Attempts(rows, nextId)
    }

    // The ids come back in (work_id, provider, work_route) order.
    method PrepareKeyAttempts(claim: Claim, generation: int, keys: seq<WorkKey>, now: Time)
      returns (r: Result<seq<AttemptId>, Error>)
      requires Valid(Current())
      modifies `rows, `nextId
      ensures Valid(Current())
      ensures r.Ok? <==> HoldsIn(leases.rows, claim, now)
      ensures Current() == if r.Ok? then Prepared(old(Current()), claim, generation, keys, now) else old(Current())
      ensures r.Ok? ==>
                && (forall i :: i in r.value <==> i in Handed(rows, claim, generation))
                && (forall i, j :: 0 <= i < j < |r.value| ==> r.value[i] != r.value[j])
                && Sorted(r.value, ByKey(rows))
    {
      var held := leases.VerifyClaim(claim, now);
      if !held {
        return Err(ClaimLost);
      }
      var scope := ScopeOf(claim, generation);
      ghost var before := Current();
      PreparedIsValid(before, claim, generation, keys, now);
      var canonical := CanonicalKeys(keys);
      for n := 0 to |canonical|
        invariant Current() == OpenedAll(before, scope, canonical[..n])
      {
        assert canonical[..n + 1][..n] == canonical[..n];
        if !Stored(rows, scope, canonical[n]) {
          rows := rows[nextId := Attempt(scope, canonical[n], Waiting, None, 0, None, 0)];
          nextId := nextId + 1;
        }
      }
      assert canonical[..|canonical|] == canonical;
      rows := TakeOpen(rows, scope, claim.token, now);
      ByKeyIsTotal(rows, scope, Handed(rows, claim, generation));
      r := Ok(InOrder(Handed(rows, claim, generation), ByKey(rows)));
    }

    method CompleteKeyAttempt(claim: Claim, id: AttemptId, outcome: Outcome, credits: nat, now: Time)
      returns (r: Result<(), Error>)
      requires Valid(Current())
      modifies `rows
      ensures Valid(Current())
      ensures r == if !HoldsIn(leases.rows, claim, now) then Err(ClaimLost)
                   else if !CanComplete(old(rows), claim, id) then Err(NotFound) else Ok(())
      ensures Current() == if r.Ok? then Complete(old(Current()), claim, id, outcome, credits) else old(Current())
    {
      var held := leases.VerifyClaim(claim, now);
      if !held {
        return Err(ClaimLost);
      }
      if !CanComplete(rows, claim, id) {
        return Err(NotFound);
      }
      rows := rows[id := Completed(rows[id], outcome, credits)];
      r := Ok(());
    }

    method GenerationAuthorialCreditCount(claim: Claim, generation: int, now: Time) returns (r: Result<nat, Error>)
      ensures r == if HoldsIn(leases.rows, claim, now)
                   then Ok(CreditTotal(rows, ScopeOf(claim, generation))) else Err(ClaimLost)
    {
      var held := leases.VerifyClaim(claim, now);
      r := if held then Ok(CreditTotal(rows, ScopeOf(claim, generation))) else Err(ClaimLost);
    }

    method GenerationOutstandingRetries(claim: Claim, generation: int, now: Time)
      returns (r: Result<seq<OutstandingRetry>, Error>)
      ensures r.Ok? <==> HoldsIn(leases.rows, claim, now)
      ensures r.Ok? ==> ListsWork(rows, Outstanding(rows, ScopeOf(claim, generation)), r.value)
    {
      var held := leases.VerifyClaim(claim, now);
      r := if held then Ok(Retries(rows, ScopeOf(claim, generation))) else Err(ClaimLost);
    }
  }

  predicate CanComplete(rows: map<AttemptId, Attempt>, claim: Claim, id: AttemptId) {
    && id in rows && rows[id].scope.user == claim.user && rows[id].scope.author == claim.author
    && rows[id].OwnedBy(claim)
  }

  function Complete(t: Attempts, claim: Claim, id: AttemptId, outcome: Outcome, credits: nat): Attempts {
    if CanComplete(t.rows, claim, id) then t.(rows := t.rows[id := Completed(t.rows[id], outcome, credits)]) else t
  }

  function Sum(rows: map<AttemptId, Attempt>, ids: seq<AttemptId>): nat {
    if ids == [] then 0
    else
      var last := ids[|ids| - 1];
      Sum(rows, ids[..|ids| - 1]) + (if last in rows then rows[last].credits else 0)
  }

  function CreditTotal(rows: map<AttemptId, Attempt>, scope: Scope): nat {
    Sum(rows, InOrder(InScope(rows, scope), ById))
  }

  function RetriesOf(rows: map<AttemptId, Attempt>, ids: seq<AttemptId>): (r: seq<OutstandingRetry>)
    requires forall k :: 0 <= k < |ids| ==> ids[k] in rows && rows[ids[k]].nextAt.Some?
    ensures |r| == |ids|
    ensures forall k :: 0 <= k < |ids| ==>
            r[k] == OutstandingRetry(rows[ids[k]].key.provider, rows[ids[k]].nextAt.value)
  {
    seq(|ids|, k requires 0 <= k < |ids| && ids[k] in rows && rows[ids[k]].nextAt.Some? =>
      OutstandingRetry(rows[ids[k]].key.provider, rows[ids[k]].nextAt.value))
  }

  // One entry per attempt of `work`, with its provider and deadline, the
  // earliest deadline first and equal ones by id.
  ghost predicate ListsWork(rows: map<AttemptId, Attempt>, work: set<AttemptId>, list: seq<OutstandingRetry>) {
    exists ids :: Lists(rows, work, list, ids)
  }

  ghost predicate Lists(
      rows: map<AttemptId, Attempt>, work: set<AttemptId>, list: seq<OutstandingRetry>, ids: seq<AttemptId>)
  {
    && |ids| == |list| && (forall i :: i in ids <==> i in work)
    && (forall k :: 0 <= k < |ids| ==> ids[k] in rows && rows[ids[k]].nextAt.Some?)
    && (forall k :: 0 <= k < |ids| ==>
          list[k] == OutstandingRetry(rows[ids[k]].key.provider, rows[ids[k]].nextAt.value))
    && forall k, l :: 0 <= k < l < |ids| ==> list[k].at < list[l].at || (list[k].at == list[l].at && ids[k] < ids[l])
  }

  // ORDER BY next_attempt_at, id.
  function Retries(rows: map<AttemptId, Attempt>, scope: Scope): (list: seq<OutstandingRetry>)
    ensures ListsWork(rows, Outstanding(rows, scope), list)
  {
    ByDeadlineIsTotal(rows, scope);
    var ids := InOrder(Outstanding(rows, scope), ByDeadline(rows));
    assert forall k :: 0 <= k < |ids| ==> ids[k] in ids;
    assert Lists(rows, Outstanding(rows, scope), RetriesOf(rows, ids), ids);
    RetriesOf(rows, ids)
  }

  // ------------------------------------------------------------------
  // One pass: prepare, then complete what was handed out
  // ------------------------------------------------------------------

  lemma OpenedIsValid(t: Attempts, scope: Scope, key: WorkKey)
    requires Valid(t)
    ensures Valid(Opened(t, scope, key)) && Stored(Opened(t, scope, key).rows, scope, key)
    ensures forall i :: i in t.rows ==> i in Opened(t, scope, key).rows && Opened(t, scope, key).rows[i] == t.rows[i]
  {
    if !Stored(t.rows, scope, key) {
      assert Opened(t, scope, key).rows[t.nextId].key == key;
    }
  }

  lemma {:induction false} OpenedAllIsValid(t: Attempts, scope: Scope, keys: seq<WorkKey>)
    requires Valid(t)
    ensures Valid(OpenedAll(t, scope, keys))
    ensures forall i :: i in t.rows ==>
            i in OpenedAll(t, scope, keys).rows && OpenedAll(t, scope, keys).rows[i] == t.rows[i]
    ensures forall k :: k in keys ==> Stored(OpenedAll(t, scope, keys).rows, scope, k)
  {
    if keys != [] {
      var front, last := keys[..|keys| - 1], keys[|keys| - 1];
      OpenedAllIsValid(t, scope, front);
      var mid := OpenedAll(t, scope, front);
      OpenedIsValid(mid, scope, last);
      forall k | k in keys ensures Stored(OpenedAll(t, scope, keys).rows, scope, k) {
        if k != last {
          assert k in front;
          var i :| i in mid.rows && mid.rows[i].scope == scope && mid.rows[i].key == k;
          assert OpenedAll(t, scope, keys).rows[i] == mid.rows[i];
        }
      }
    }
  }

  lemma PreparedIsValid(t: Attempts, claim: Claim, generation: int, keys: seq<WorkKey>, now: Time)
    requires Valid(t)
    ensures Valid(Prepared(t, claim, generation, keys, now))
  {
    OpenedAllIsValid(t, ScopeOf(claim, generation), CanonicalKeys(keys));
  }

  lemma {:induction false} TrimmedHas(keys: seq<WorkKey>, key: WorkKey)
    requires key in keys && Trim(key.route) != ""
    ensures key.(route := Trim(key.route)) in Trimmed(keys)
  {
    var front, last := keys[..|keys| - 1], keys[|keys| - 1];
    if key != last {
      TrimmedHas(front, key);
    }
  }

  // Every key with something left after trimming has its attempt, and what is
  // not handed out is over already.
  lemma PreparedCovers(t: Attempts, claim: Claim, generation: int, keys: seq<WorkKey>, now: Time)
    requires Valid(t)
    ensures var rows, scope := Prepared(t, claim, generation, keys, now).rows, ScopeOf(claim, generation);
            && (forall k :: k in keys && Trim(k.route) != "" ==> Stored(rows, scope, k.(route := Trim(k.route))))
            && forall i :: i in InScope(rows, scope) ==> i in Handed(rows, claim, generation) || rows[i].Settled()
  {
    var scope, canonical := ScopeOf(claim, generation), CanonicalKeys(keys);
    OpenedAllIsValid(t, scope, canonical);
    var mid := OpenedAll(t, scope, canonical);
    var rows := Prepared(t, claim, generation, keys, now).rows;
    forall k | k in keys && Trim(k.route) != "" ensures Stored(rows, scope, k.(route := Trim(k.route))) {
      var key := k.(route := Trim(k.route));
      TrimmedHas(keys, k);
      assert key in multiset(Trimmed(keys)) && key in multiset(Sort(Trimmed(keys), WorkKeyLe));
      assert key in canonical;
      var i :| i in mid.rows && mid.rows[i].scope == scope && mid.rows[i].key == key;
      assert rows[i].key == key;
    }
  }

  datatype Completion = Completion(id: AttemptId, outcome: Outcome, credits: nat)

  function CompleteAll(t: Attempts, claim: Claim, done: seq<Completion>): Attempts {
    if done == [] then t
    else
      var last := done[|done| - 1];
      Complete(CompleteAll(t, claim, done[..|done| - 1]), claim, last.id, last.outcome, last.credits)
  }

  predicate Completes(done: seq<Completion>, i: AttemptId) {
    exists k :: 0 <= k < |done| && done[k].id == i
  }

  // A completed row is settled, every other is as it was.
  ghost predicate CompletedRow(before: Attempts, after: Attempts, done: seq<Completion>, i: AttemptId) {
    i in before.rows ==>
      && i in after.rows && after.rows[i].scope == before.rows[i].scope
      && if Completes(done, i) then after.rows[i].Settled() else after.rows[i] == before.rows[i]
  }

  lemma CompletesStep(done: seq<Completion>, i: AttemptId)
    requires done != []
    ensures Completes(done, i) <==> Completes(done[..|done| - 1], i) || i == done[|done| - 1].id
  {
    var front := done[..|done| - 1];
    if Completes(front, i) {
      var k :| 0 <= k < |front| && front[k].id == i;
      assert done[k].id == i;
    }
  }

  lemma {:induction false} CompletedRows(
      t: Attempts, claim: Claim, generation: int, done: seq<Completion>, i: AttemptId)
    requires forall k :: 0 <= k < |done| ==> done[k].id in Handed(t.rows, claim, generation)
    ensures CompletedRow(t, CompleteAll(t, claim, done), done, i)
    ensures CompleteAll(t, claim, done).rows.Keys == t.rows.Keys
  {
    if done != [] {
      CompletedRows(t, claim, generation, done[..|done| - 1], i);
      CompletesStep(done, i);
    }
  }

  // What is left of a generation.
  function Unfinished(rows: map<AttemptId, Attempt>, scope: Scope): set<AttemptId> {
    set i | i in InScope(rows, scope) && !rows[i].Terminal()
  }

  // Prepare, then complete each returned row in any order: every attempt of
  // the generation is terminal or waits for a recorded time, and the retry
  // list names the work that is left, each attempt once with its deadline.
  lemma OnePassSettles(
      t: Attempts, claim: Claim, generation: int, keys: seq<WorkKey>, now: Time, done: seq<Completion>)
    requires Valid(t)
    requires forall i :: i in Handed(Prepared(t, claim, generation, keys, now).rows, claim, generation)
               <==> Completes(done, i)
    ensures var after, scope := CompleteAll(Prepared(t, claim, generation, keys, now), claim, done).rows,
                                ScopeOf(claim, generation);
            && (forall i :: i in InScope(after, scope) ==> after[i].Settled())
            && ListsWork(after, Unfinished(after, scope), Retries(after, scope))
  {
    PreparedCovers(t, claim, generation, keys, now);
    HandedSettle(Prepared(t, claim, generation, keys, now), claim, generation, done);
  }

  lemma HandedSettle(p: Attempts, claim: Claim, generation: int, done: seq<Completion>)
    requires forall i :: i in InScope(p.rows, ScopeOf(claim, generation)) ==>
               i in Handed(p.rows, claim, generation) || p.rows[i].Settled()
    requires forall i :: i in Handed(p.rows, claim, generation) <==> Completes(done, i)
    ensures var after, scope := CompleteAll(p, claim, done).rows, ScopeOf(claim, generation);
            && (forall i :: i in InScope(after, scope) ==> after[i].Settled())
            && ListsWork(after, Unfinished(after, scope), Retries(after, scope))
  {
    var after, scope := CompleteAll(p, claim, done).rows, ScopeOf(claim, generation);
    assert forall k :: 0 <= k < |done| ==> Completes(done, done[k].id);
    CompletedRows(p, claim, generation, done, 0);
    forall i | i in InScope(after, scope) ensures after[i].Settled() {
      CompletedRows(p, claim, generation, done, i);
      assert i in InScope(p.rows, scope);
    }
    assert Outstanding(after, scope) == Unfinished(after, scope);
  }

  // ------------------------------------------------------------------
  // Runs
  // ------------------------------------------------------------------

  // The accepted transactions; each stands under whatever claim held then. Rows
  // go with their author and with their work (ON DELETE CASCADE).
  datatype Event =
    | Prepare(claim: Claim, generation: int, keys: seq<WorkKey>)
    | Finish(claim: Claim, completion: Completion)
    | AuthorGone(author: AuthorId)
    | WorkGone(work: WorkId)

  datatype Moment = Moment(now: Time, event: Event)

  function Step(t: Attempts, m: Moment): Attempts {
    match m.event
    case Prepare(claim, generation, keys) => Prepared(t, claim, generation, keys, m.now)
    case Finish(claim, c) => Complete(t, claim, c.id, c.outcome, c.credits)
    case _ => t.(rows := map i | i in t.rows && !Deletes(m, t.rows[i]) :: t.rows[i])
  }

  predicate Deletes(m: Moment, row: Attempt) {
    match m.event
    case AuthorGone(a) => row.scope.author == a
    case WorkGone(w) => row.key.work == w
    case _ => false
  }

  ghost predicate IsRun(ts: seq<Attempts>, ms: seq<Moment>) {
    && |ts| == |ms| + 1 && ts[0] == Attempts(map[], 1)
    && forall i :: 0 <= i < |ms| ==> ts[i + 1] == Step(ts[i], ms[i])
  }

  lemma StepKeepsValid(t: Attempts, m: Moment)
    requires Valid(t)
    ensures Valid(Step(t, m))
  {
    match m.event {
      case Prepare(claim, generation, keys) => PreparedIsValid(t, claim, generation, keys, m.now);
      case _ =>
    }
  }

  lemma {:induction false} RunIsValid(ts: seq<Attempts>, ms: seq<Moment>, i: nat)
    requires IsRun(ts, ms) && i <= |ms|
    ensures Valid(ts[i])
  {
    if i > 0 {
      RunIsValid(ts, ms, i - 1);
      StepKeepsValid(ts[i - 1], ms[i - 1]);
      assert ts[i] == Step(ts[i - 1], ms[i - 1]);
    }
  }

  lemma RowStep(t: Attempts, m: Moment, id: AttemptId)
    requires Valid(t) && id in t.rows
    ensures var after := Step(t, m).rows;
            && (id in after <==> !Deletes(m, t.rows[id]))
            && (id in after ==>
                  && after[id].scope == t.rows[id].scope && after[id].key == t.rows[id].key
                  && (t.rows[id].Terminal() ==> after[id] == t.rows[id])
                  && after[id].credits == if Credits(t, m, id) then m.event.completion.credits else t.rows[id].credits)
  {
    match m.event {
      case Prepare(claim, generation, keys) =>
        OpenedAllIsValid(t, ScopeOf(claim, generation), CanonicalKeys(keys));
      case _ =>
    }
  }

  // Attempt ids are never used twice.
  lemma IdStaysUsed(t: Attempts, m: Moment, id: AttemptId)
    requires Valid(t)
    ensures t.nextId <= Step(t, m).nextId
    ensures id < t.nextId && id !in t.rows ==> id !in Step(t, m).rows
  {
    match m.event {
      case Prepare(claim, generation, keys) => OpenedUsesNew(t, ScopeOf(claim, generation), CanonicalKeys(keys), id);
      case _ =>
    }
  }

  lemma {:induction false} OpenedUsesNew(t: Attempts, scope: Scope, keys: seq<WorkKey>, id: AttemptId)
    ensures t.nextId <= OpenedAll(t, scope, keys).nextId
    ensures id < t.nextId && id !in t.rows ==> id !in OpenedAll(t, scope, keys).rows
  {
    if keys != [] {
      OpenedUsesNew(t, scope, keys[..|keys| - 1], id);
    }
  }

  // The moment records a fresh observation for this row.
  predicate Credits(t: Attempts, m: Moment, id: AttemptId) {
    m.event.Finish? && m.event.completion.id == id && CanComplete(t.rows, m.event.claim, id)
  }

  predicate SameKey(a: Attempt, b: Attempt) {
    a.scope == b.scope && a.key == b.key
  }

  ghost predicate NothingDeletes(ms: seq<Moment>, i: nat, j: nat, row: Attempt)
    requires i <= j <= |ms|
  {
    forall k :: i <= k < j ==> !Deletes(ms[k], row)
  }

  // A terminal attempt is never taken or rewritten again. Its row is final and
  // goes only with its author or its work; and rows live in one generation, so
  // while it is there nothing re-runs its key there.
  lemma TerminalIsFinal(ts: seq<Attempts>, ms: seq<Moment>, i: nat, j: nat, id: AttemptId)
    requires IsRun(ts, ms) && i <= j <= |ms| && id in ts[i].rows && ts[i].rows[id].Terminal()
    ensures id in ts[j].rows <==> NothingDeletes(ms, i, j, ts[i].rows[id])
    ensures id in ts[j].rows ==>
              ts[j].rows[id] == ts[i].rows[id]
              && forall k :: k in ts[j].rows && SameKey(ts[j].rows[k], ts[i].rows[id]) ==> k == id
  {
    TerminalRow(ts, ms, i, j, id, ts[i].rows[id]);
    RunIsValid(ts, ms, j);
  }

  lemma {:induction false} TerminalRow(
      ts: seq<Attempts>, ms: seq<Moment>, i: nat, j: nat, id: AttemptId, row: Attempt)
    requires IsRun(ts, ms) && i <= j <= |ms| && id in ts[i].rows && ts[i].rows[id] == row && row.Terminal()
    ensures id in ts[j].rows <==> NothingDeletes(ms, i, j, row)
    ensures id in ts[j].rows ==> ts[j].rows[id] == row
    ensures id < ts[j].nextId
  {
    if i < j {
      TerminalRow(ts, ms, i, j - 1, id, row);
      TerminalAt(ts, ms, j, id, row);
      NothingDeletesSnoc(ms, i, j, row);
    } else {
      RunIsValid(ts, ms, i);
    }
  }

  lemma NothingDeletesSnoc(ms: seq<Moment>, i: nat, j: nat, row: Attempt)
    requires i < j <= |ms|
    ensures NothingDeletes(ms, i, j, row) <==> NothingDeletes(ms, i, j - 1, row) && !Deletes(ms[j - 1], row)
  {}

  // The step into moment j, for a row that was terminal, deleted or not.
  lemma TerminalAt(ts: seq<Attempts>, ms: seq<Moment>, j: nat, id: AttemptId, row: Attempt)
    requires IsRun(ts, ms) && 0 < j <= |ms| && row.Terminal() && id < ts[j - 1].nextId
    requires id in ts[j - 1].rows ==> ts[j - 1].rows[id] == row
    ensures id in ts[j].rows <==> id in ts[j - 1].rows && !Deletes(ms[j - 1], row)
    ensures id in ts[j].rows ==> ts[j].rows[id] == row
    ensures id < ts[j].nextId
  {
    assert ts[j - 1 + 1] == Step(ts[j - 1], ms[j - 1]);
    RunIsValid(ts, ms, j - 1);
    IdStaysUsed(ts[j - 1], ms[j - 1], id);
    if id in ts[j - 1].rows {
      RowStep(ts[j - 1], ms[j - 1], id);
    }
  }

  // What the last accepted completion of a row observed.
  ghost function LastSeen(ts: seq<Attempts>, ms: seq<Moment>, i: nat, id: AttemptId): nat
    requires i <= |ms| < |ts|
  {
    if i == 0 then 0
    else if Credits(ts[i - 1], ms[i - 1], id) then ms[i - 1].event.completion.credits
    else LastSeen(ts, ms, i - 1, id)
  }

  ghost function SumSeen(ts: seq<Attempts>, ms: seq<Moment>, i: nat, ids: seq<AttemptId>): nat
    requires i <= |ms| < |ts|
  {
    if ids == [] then 0 else SumSeen(ts, ms, i, ids[..|ids| - 1]) + LastSeen(ts, ms, i, ids[|ids| - 1])
  }

  lemma {:induction false} CreditIsLastSeen(ts: seq<Attempts>, ms: seq<Moment>, i: nat, id: AttemptId)
    requires IsRun(ts, ms) && i <= |ms| && id in ts[i].rows
    ensures ts[i].rows[id].credits == LastSeen(ts, ms, i, id)
  {
    if i > 0 {
      RunIsValid(ts, ms, i - 1);
      assert ts[i] == Step(ts[i - 1], ms[i - 1]);
      if id in ts[i - 1].rows {
        CreditIsLastSeen(ts, ms, i - 1, id);
        RowStep(ts[i - 1], ms[i - 1], id);
      } else {
        NewRowIsUnseen(ts, ms, i, id);
      }
    }
  }

  lemma NewRowIsUnseen(ts: seq<Attempts>, ms: seq<Moment>, i: nat, id: AttemptId)
    requires IsRun(ts, ms) && 0 < i <= |ms| && id in ts[i].rows && id !in ts[i - 1].rows
    ensures ts[i].rows[id].credits == LastSeen(ts, ms, i, id)
  {
    NewRowAt(ts, ms, i, id);
    NeverThere(ts, ms, i - 1, id);
  }

  lemma NewRowAt(ts: seq<Attempts>, ms: seq<Moment>, i: nat, id: AttemptId)
    requires IsRun(ts, ms) && 0 < i <= |ms| && id in ts[i].rows && id !in ts[i - 1].rows
    ensures ts[i].rows[id].credits == 0 && !Credits(ts[i - 1], ms[i - 1], id) && id >= ts[i - 1].nextId
  {
    assert ts[i - 1 + 1] == Step(ts[i - 1], ms[i - 1]);
    NewRowCredits(ts[i - 1], ms[i - 1], id);
    RunIsValid(ts, ms, i - 1);
    IdStaysUsed(ts[i - 1], ms[i - 1], id);
  }

  lemma NewRowCredits(t: Attempts, m: Moment, id: AttemptId)
    requires id !in t.rows && id in Step(t, m).rows
    ensures Step(t, m).rows[id].credits == 0 && !Credits(t, m, id)
  {
    match m.event {
      case Prepare(claim, generation, keys) =>
        NewRowIsEmpty(t, ScopeOf(claim, generation), CanonicalKeys(keys), id);
      case _ =>
    }
  }

  lemma {:induction false} NewRowIsEmpty(t: Attempts, scope: Scope, keys: seq<WorkKey>, id: AttemptId)
    requires id !in t.rows && id in OpenedAll(t, scope, keys).rows
    ensures OpenedAll(t, scope, keys).rows[id].credits == 0
  {
    if keys != [] && id in OpenedAll(t, scope, keys[..|keys| - 1]).rows {
      NewRowIsEmpty(t, scope, keys[..|keys| - 1], id);
    }
  }

  lemma {:induction false} NeverThere(ts: seq<Attempts>, ms: seq<Moment>, i: nat, id: AttemptId)
    requires IsRun(ts, ms) && i <= |ms| && id >= ts[i].nextId
    ensures LastSeen(ts, ms, i, id) == 0
  {
    if i > 0 {
      RunIsValid(ts, ms, i - 1);
      assert ts[i] == Step(ts[i - 1], ms[i - 1]);
      IdStaysUsed(ts[i - 1], ms[i - 1], id);
      NeverThere(ts, ms, i - 1, id);
    }
  }

  lemma {:induction false} SumsAgree(ts: seq<Attempts>, ms: seq<Moment>, i: nat, ids: seq<AttemptId>)
    requires IsRun(ts, ms) && i <= |ms| && forall id :: id in ids ==> id in ts[i].rows
    ensures Sum(ts[i].rows, ids) == SumSeen(ts, ms, i, ids)
  {
    if ids != [] {
      var last := ids[|ids| - 1];
      assert last in ids;
      SumsAgree(ts, ms, i, ids[..|ids| - 1]);
      CreditIsLastSeen(ts, ms, i, last);
    }
  }

  // The credit total of a generation adds up each row's last observation: a
  // retried attempt is counted once, as it was last seen.
  lemma CreditsAreLastSeen(ts: seq<Attempts>, ms: seq<Moment>, i: nat, scope: Scope)
    requires IsRun(ts, ms) && i <= |ms|
    ensures CreditTotal(ts[i].rows, scope) == SumSeen(ts, ms, i, InOrder(InScope(ts[i].rows, scope), ById))
  {
    SumsAgree(ts, ms, i, InOrder(InScope(ts[i].rows, scope), ById));
  }
}
