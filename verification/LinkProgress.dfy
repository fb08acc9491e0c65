// The author-link progress table: leases, claim tokens, the display-name
// compare-and-set and the voiding trigger
// (crates/livrarr-db/src/sqlite_author_link.rs:216-347, 999-1059, 1182-1224,
// 1424-1482, 2008-2057; migration 078). A row is a value with one function per
// UPDATE; the class holds the table and issues the statements.
module LinkProgress {
  import opened Basics
  import opened LinkCodec
  import opened Sorting

  type AuthorId = int
  type UserId = int
  type Token = int
  type Time = int

  datatype LinkState =
    | Queued | Running | ParkedNoSettledWork | ParkedNoEvidence | NeedsReview | Linked | RetryableFailure

  datatype Trigger =
    | LegacyBackfill | AuthorCreated | AuthorAdopted | UserReResolve | EvidenceFingerprintChanged
    | DisplayNameDirty | RetryDue

  // `AuthorLinkClaim`.
  datatype Claim = Claim(
    author: AuthorId, user: UserId, token: Token, leaseUntil: Time, cursor: Option<Cursor>, displayed: int)

  // `AuthorLinkProgressUpdate`, the parts that later steps read.
  datatype Update = Update(
    state: LinkState, cursor: Option<Cursor>, fingerprint: Option<Fingerprint>, evidence: int, dirty: bool,
    nextAt: Time)

  datatype Progress = Progress(
    user: UserId, state: LinkState, trigger: Trigger, cursor: Option<Cursor>, fingerprint: Option<Fingerprint>,
    evidence: int, displayed: int, dirty: bool, attempts: int, nextAt: Time,
    token: Option<Token>, lease: Option<Time>)
  {
    predicate Leased(now: Time) {
      lease.Some? && lease.value > now
    }

    // `verify_claim_tx`.
    predicate Holds(claim: Claim, now: Time) {
      user == claim.user && token == Some(claim.token) && Leased(now)
    }

    // The WHERE clause of `claim_due`.
    predicate IsDue(now: Time) {
      !Leased(now) && (nextAt <= now || dirty)
    }

    // The conflict clause of `ensure_progress_tx`.
    function Ensured(why: Trigger, now: Time): Progress {
      this.(
        state := if why != UserReResolve && Leased(now) then state else Queued,
        trigger := why,
        nextAt := Min(nextAt, now),
        token := if why == UserReResolve then None else token,
        lease := if why == UserReResolve then None else lease)
    }

    function Observed(now: Time): Progress {
      this.(displayed := displayed + 1, dirty := true, nextAt := Min(nextAt, now))
    }

    function Taken(mark: Token, until: Time): Progress {
      this.(token := Some(mark), lease := Some(until), state := Running)
    }

    function Begun(generation: int): Progress {
      this.(evidence := Max(evidence, generation), cursor := None)
    }

    function Advanced(claim: Claim, update: Update, now: Time): Progress {
      this.(
        state := update.state,
        cursor := update.cursor,
        fingerprint := update.fingerprint,
        evidence := update.evidence,
        attempts := attempts + 1,
        dirty := if displayed == claim.displayed then update.dirty else true,
        nextAt := if displayed == claim.displayed then update.nextAt else Min(nextAt, now),
        token := None,
        lease := None)
    }

    // The trigger of migration 078.
    function Voided(now: Time): Progress {
      this.(
        state := Queued, trigger := EvidenceFingerprintChanged, nextAt := Min(nextAt, now),
        token := None, lease := None)
    }
  }

  function NewRow(user: UserId, why: Trigger, now: Time): Progress {
    Progress(user, Queued, why, None, None, 0, 0, false, 0, now, None, None)
  }

  type Rows = map<AuthorId, Progress>

  // A row for every author that has none.
  function Enrolled(rows: Rows, owners: map<AuthorId, UserId>, now: Time): Rows {
    rows + map a | a in owners && a !in rows :: NewRow(owners[a], LegacyBackfill, now)
  }

  predicate HoldsIn(rows: Rows, claim: Claim, now: Time) {
    claim.author in rows && rows[claim.author].Holds(claim, now)
  }

  // ------------------------------------------------------------------
  // SELECT ... ORDER BY next_attempt_at, author_id LIMIT ?
  // ------------------------------------------------------------------

  function Due(rows: Rows, now: Time): set<AuthorId> {
    set a | a in rows && rows[a].IsDue(now)
  }

  predicate Before(rows: Rows, a: AuthorId, b: AuthorId) {
    a in rows && b in rows
    && (rows[a].nextAt < rows[b].nextAt || (rows[a].nextAt == rows[b].nextAt && a <= b))
  }

  function ByDueTime(rows: Rows): (AuthorId, AuthorId) -> bool {
    (a, b) => Before(rows, a, b)
  }

  function Picked(rows: Rows, now: Time, limit: nat): (r: seq<AuthorId>)
    ensures forall a :: a in r ==> a in Due(rows, now)
    ensures forall i, j :: 0 <= i < j < |r| ==> r[i] != r[j]
  {
    var all := InOrder(Due(rows, now), ByDueTime(rows));
    if |all| <= limit then all else all[..limit]
  }

  // A due author that a full batch leaves out comes after every author in it:
  // with room in the batch, no due author is passed over.
  lemma DueIsPicked(rows: Rows, now: Time, limit: nat, a: AuthorId)
    requires a in Due(rows, now) && a !in Picked(rows, now, limit)
    ensures |Picked(rows, now, limit)| == limit
    ensures forall b :: b in Picked(rows, now, limit) ==> Before(rows, b, a)
  {
    var all := InOrder(Due(rows, now), ByDueTime(rows));
    var k :| 0 <= k < |all| && all[k] == a;
    assert k >= limit;
    forall b | b in Picked(rows, now, limit) ensures Before(rows, b, a) {
      var i :| 0 <= i < limit && all[i] == b;
      assert ByDueTime(rows)(all[i], all[k]);
    }
  }

  function IndexOf(s: seq<AuthorId>, a: AuthorId): (k: nat)
    requires a in s
    ensures k < |s| && s[k] == a
  {
    if s[0] == a then 0 else IndexOf(s[1..], a) + 1
  }

  function ClaimOf(rows: Rows, a: AuthorId, token: Token, until: Time): Claim
    requires a in rows
  {
    Claim(a, rows[a].user, token, until, rows[a].cursor, rows[a].displayed)
  }

  function Claims(rows: Rows, picked: seq<AuthorId>, first: Token, until: Time): seq<Claim>
    requires forall a :: a in picked ==> a in rows
  {
    if picked == [] then []
    else
      var last := |picked| - 1;
      assert picked[last] in picked;
      Claims(rows, picked[..last], first, until) + [ClaimOf(rows, picked[last], first + last, until)]
  }

  lemma {:induction false} IndexOfAt(s: seq<AuthorId>, k: nat)
    requires k < |s| && forall i, j :: 0 <= i < j < |s| ==> s[i] != s[j]
    ensures IndexOf(s, s[k]) == k
  {}

  // The table once the first k authors of a batch are taken.
  function TakeFirst(rows: Rows, picked: seq<AuthorId>, k: nat, nextToken: Token, until: Time): (r: Rows)
    requires k <= |picked| && forall a :: a in picked ==> a in rows
    ensures r.Keys == rows.Keys
  {
    if k == 0 then rows
    else
      var front := TakeFirst(rows, picked, k - 1, nextToken, until);
      assert picked[k - 1] in picked;
      front[picked[k - 1] := front[picked[k - 1]].Taken(nextToken + k - 1, until)]
  }

  lemma {:induction false} TakeFirstAt(
      rows: Rows, picked: seq<AuthorId>, k: nat, nextToken: Token, until: Time, a: AuthorId)
    requires k <= |picked| && a in rows && forall b :: b in picked ==> b in rows
    requires forall i, j :: 0 <= i < j < |picked| ==> picked[i] != picked[j]
    ensures TakeFirst(rows, picked, k, nextToken, until)[a]
         == if a in picked && IndexOf(picked, a) < k then rows[a].Taken(nextToken + IndexOf(picked, a), until)
             else rows[a]
  {
    if k > 0 {
      TakeFirstAt(rows, picked, k - 1, nextToken, until, a);
      assert picked[k - 1] in picked;
    }
  }

  ghost predicate Batch(rows: Rows, due: seq<AuthorId>, now: Time) {
    && (forall a :: a in due ==> a in rows && rows[a].IsDue(now))
    && forall i, j :: 0 <= i < j < |due| ==> due[i] != due[j]
  }

  lemma PickedIsBatch(rows: Rows, now: Time, limit: nat)
    ensures Batch(rows, Picked(rows, now, limit), now)
  {}

  // The author whose turn it is is still free to take.
  lemma TakeTurn(rows: Rows, due: seq<AuthorId>, k: nat, first: Token, now: Time, until: Time)
    requires Batch(rows, due, now) && k < |due|
    ensures due[k] in rows && !TakeFirst(rows, due, k, first, until)[due[k]].Leased(now)
    ensures TakeFirst(rows, due, k + 1, first, until)
         == TakeFirst(rows, due, k, first, until)
              [due[k] := TakeFirst(rows, due, k, first, until)[due[k]].Taken(first + k, until)]
    ensures forall a :: a in due[..k + 1] ==> a in rows
    ensures Claims(rows, due[..k + 1], first, until)
         == Claims(rows, due[..k], first, until) + [ClaimOf(rows, due[k], first + k, until)]
  {
    assert due[k] in due;
    IndexOfAt(due, k);
    TakeFirstAt(rows, due, k, first, until, due[k]);
    assert due[..k + 1][..k] == due[..k];
  }

  lemma TakenAt(rows: Rows, picked: seq<AuthorId>, nextToken: Token, until: Time, a: AuthorId)
    requires a in rows && forall b :: b in picked ==> b in rows
    requires forall i, j :: 0 <= i < j < |picked| ==> picked[i] != picked[j]
    ensures TakeFirst(rows, picked, |picked|, nextToken, until)[a]
         == if a in picked then rows[a].Taken(nextToken + IndexOf(picked, a), until) else rows[a]
  {
    TakeFirstAt(rows, picked, |picked|, nextToken, until, a);
  }

  // ------------------------------------------------------------------
  // The table
  // ------------------------------------------------------------------

  class ProgressTable {
    var rows: Rows
    // The next unused claim token: `Uuid::new_v4` never repeats one.
    var nextToken: Token

    method VerifyClaim(claim: Claim, now: Time) returns (ok: bool)
      ensures ok <==> HoldsIn(rows, claim, now)
    {
      ok := claim.author in rows && rows[claim.author].Holds(claim, now);
    }

    method EnsureProgress(author: AuthorId, user: UserId, why: Trigger, now: Time)
      modifies `rows
      ensures Links(rows, nextToken) == Step(Links(old(rows), nextToken), Moment(now, Enqueue(author, user, why)))
    {
      if author in rows {
        rows := rows[author := rows[author].Ensured(why, now)];
      } else {
        rows := rows[author := NewRow(user, why, now)];
      }
    }

    // The claims of a batch are handed out in due order, each with a token of
    // its own and the display generation read with it.
    method ClaimDue(now: Time, until: Time, limit: nat) returns (claims: seq<Claim>)
      modifies `rows, `nextToken
      ensures Batch(old(rows), Picked(old(rows), now, limit), now)
      ensures Links(rows, nextToken)
           == Step(Links(old(rows), old(nextToken)), Moment(now, TakeBatch(until, Picked(old(rows), now, limit))))
      ensures claims == Claims(old(rows), Picked(old(rows), now, limit), old(nextToken), until)
    {
      var due := Picked(rows, now, limit);
      PickedIsBatch(rows, now, limit);
      claims := TakeAll(due, now, until);
    }

    // The loop over the selected rows; their cursors and display generations
    // are the ones the SELECT read.
    method TakeAll(due: seq<AuthorId>, now: Time, until: Time) returns (claims: seq<Claim>)
      requires Batch(rows, due, now)
      modifies `rows, `nextToken
      ensures rows == TakeFirst(old(rows), due, |due|, old(nextToken), until)
      ensures nextToken == old(nextToken) + |due|
      ensures claims == Claims(old(rows), due, old(nextToken), until)
    {
      var selected, first := rows, nextToken;
      claims := [];
      for k := 0 to |due|
        invariant rows == TakeFirst(selected, due, k, first, until)
        invariant nextToken == first + k
        invariant claims == Claims(selected, due[..k], first, until)
      {
        TakeTurn(selected, due, k, first, now, until);
        var taken := TakeOne(due[k], now, until);
        if taken {
          claims := claims + [ClaimOf(selected, due[k], first + k, until)];
        }
      }
      assert due[..|due|] == due;
    }

    // The guarded UPDATE of one batch member.
    method TakeOne(author: AuthorId, now: Time, until: Time) returns (taken: bool)
      requires author in rows
      modifies `rows, `nextToken
      ensures taken <==> !old(rows)[author].Leased(now)
      ensures rows == if taken then old(rows)[author := old(rows)[author].Taken(old(nextToken), until)] else old(rows)
      ensures nextToken == old(nextToken) + (if taken then 1 else 0)
    {
      taken := !rows[author].Leased(now);
      if taken {
        rows := rows[author := rows[author].Taken(nextToken, until)];
        nextToken := nextToken + 1;
      }
    }

    method BeginEvidenceGeneration(claim: Claim, generation: int, now: Time) returns (ok: bool)
      modifies `rows
      ensures ok <==> HoldsIn(old(rows), claim, now)
      ensures Links(rows, nextToken) == Step(Links(old(rows), nextToken), Moment(now, Begin(claim, generation)))
    {
      ok := VerifyClaim(claim, now);
      if ok {
        rows := rows[claim.author := rows[claim.author].Begun(generation)];
      }
    }

    method AdvanceProgress(claim: Claim, update: Update, now: Time) returns (ok: bool)
      modifies `rows
      ensures ok <==> HoldsIn(old(rows), claim, now)
      ensures Links(rows, nextToken) == Step(Links(old(rows), nextToken), Moment(now, Advance(claim, update)))
    {
      ok := VerifyClaim(claim, now);
      if ok {
        rows := rows[claim.author := rows[claim.author].Advanced(claim, update, now)];
      }
    }

    // The last statement of `ingest_legacy_routes`.
    method Enroll(owners: map<AuthorId, UserId>, now: Time)
      modifies `rows
      ensures rows == Enrolled(old(rows), owners, now)
    {
      rows := Enrolled(rows, owners, now);
    }

    // The author's row goes with the author.
    method DeleteAuthor(author: AuthorId)
      modifies `rows
      ensures Links(rows, nextToken) == Step(Links(old(rows), nextToken), Moment(0, Delete(author)))
    {
      rows := rows - {author};
    }

    // The last statement of `record_observed_names_tx`; it runs once for all
    // observations, and only when one of them was new.
    method WakeForNames(author: AuthorId, inserted: nat, now: Time)
      modifies `rows
      ensures Links(rows, nextToken)
           == if inserted > 0 then Step(Links(old(rows), nextToken), Moment(now, Observe(author)))
              else Links(old(rows), nextToken)
    {
      if inserted > 0 && author in rows {
        rows := rows[author := rows[author].Observed(now)];
      }
    }

    // `revoke_dismissals_and_replay`, its two progress statements.
    method Replay(author: AuthorId, user: UserId, now: Time)
      modifies `rows
      ensures Links(rows, nextToken) == Step(Links(old(rows), nextToken), Moment(now, Revoke(author, user)))
    {
      EnsureProgress(author, user, UserReResolve, now);
      if rows[author].user == user {
        rows := rows[author := rows[author].(fingerprint := None)];
      }
    }

    // The UPDATE of `rederive_progress_tx`.
    method SetState(author: AuthorId, state: LinkState)
      modifies `rows
      ensures Links(rows, nextToken) == Step(Links(old(rows), nextToken), Moment(0, Rederive(author, state)))
    {
      if author in rows {
        rows := rows[author := rows[author].(state := state)];
      }
    }

    // `record_candidates`, its progress statement.
    method RaiseEvidence(claim: Claim, generation: int, now: Time)
      requires HoldsIn(rows, claim, now)
      modifies `rows
      ensures Links(rows, nextToken) == Step(Links(old(rows), nextToken), Moment(now, Write(claim, generation)))
    {
      if generation > rows[claim.author].evidence {
        rows := rows[claim.author := rows[claim.author].(evidence := generation)];
      }
    }
  }

  // ------------------------------------------------------------------
  // Runs
  // ------------------------------------------------------------------

  datatype Links = Links(rows: Rows, nextToken: Token)

  // Every transaction that touches the table. `Write` stands for the other
  // token-checked ones (attempts, candidates, guarded routes); the candidates
  // also raise the evidence generation. Claimless writes leave the table alone.
  datatype Event =
    | Enqueue(author: AuthorId, user: UserId, why: Trigger)
    | Backfill(author: AuthorId, user: UserId)
    | Observe(author: AuthorId)
    | TakeBatch(until: Time, picked: seq<AuthorId>)
    | Begin(claim: Claim, generation: int)
    | Write(claim: Claim, generation: int)
    | Advance(claim: Claim, update: Update)
    | EvidenceChanged(author: AuthorId, user: UserId)
    | Revoke(author: AuthorId, user: UserId)
    | Rederive(author: AuthorId, state: LinkState)
    | Delete(author: AuthorId)

  function ClaimBatch(s: Links, picked: seq<AuthorId>, until: Time): Links
    requires forall a :: a in picked ==> a in s.rows
  {
    Links(TakeFirst(s.rows, picked, |picked|, s.nextToken, until), s.nextToken + |picked|)
  }

  lemma BatchAt(s: Links, picked: seq<AuthorId>, until: Time, a: AuthorId)
    requires a in s.rows && forall b :: b in picked ==> b in s.rows
    requires forall i, j :: 0 <= i < j < |picked| ==> picked[i] != picked[j]
    ensures a in ClaimBatch(s, picked, until).rows
    ensures ClaimBatch(s, picked, until).rows[a]
         == if a in picked then s.rows[a].Taken(s.nextToken + IndexOf(picked, a), until) else s.rows[a]
  {
    TakenAt(s.rows, picked, s.nextToken, until, a);
  }

  datatype Moment = Moment(now: Time, event: Event)

  // A batch takes different due authors.
  ghost predicate Legal(s: Links, m: Moment) {
    m.event.TakeBatch? ==> Batch(s.rows, m.event.picked, m.now)
  }

  function Step(s: Links, m: Moment): Links
    requires Legal(s, m)
  {
    var rows, now := s.rows, m.now;
    match m.event
    case Enqueue(a, user, why) =>
      s.(rows := rows[a := if a in rows then rows[a].Ensured(why, now) else NewRow(user, why, now)])
    case Backfill(a, user) =>
      if a in rows then s else s.(rows := rows[a := NewRow(user, LegacyBackfill, now)])
    case Observe(a) =>
      if a in rows then s.(rows := rows[a := rows[a].Observed(now)]) else s
    case TakeBatch(until, picked) =>
      ClaimBatch(s, picked, until)
    case Begin(claim, generation) =>
      if HoldsIn(rows, claim, now) then s.(rows := rows[claim.author := rows[claim.author].Begun(generation)]) else s
    case Write(claim, generation) =>
      if HoldsIn(rows, claim, now) && generation > rows[claim.author].evidence
      then s.(rows := rows[claim.author := rows[claim.author].(evidence := generation)]) else s
    case Advance(claim, update) =>
      if HoldsIn(rows, claim, now)
      then s.(rows := rows[claim.author := rows[claim.author].Advanced(claim, update, now)]) else s
    case EvidenceChanged(a, user) =>
      if a in rows && rows[a].user == user then s.(rows := rows[a := rows[a].Voided(now)]) else s
    case Revoke(a, user) =>
      var row := if a in rows then rows[a].Ensured(UserReResolve, now) else NewRow(user, UserReResolve, now);
      s.(rows := rows[a := if row.user == user then row.(fingerprint := None) else row])
    case Rederive(a, state) =>
      if a in rows then s.(rows := rows[a := rows[a].(state := state)]) else s
    case Delete(a) =>
      s.(rows := rows - {a})
  }
}
