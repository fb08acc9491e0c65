// Runs of the author-link worker protocol: which token-bearing writes are
// accepted, and when the dirty flag may be clear
// (crates/livrarr-db/src/sqlite_author_link.rs:216-344, 999-1059, 2008-2057).
module LinkRuns {
  import opened Basics
  import opened LinkProgress

  // The states of a run and the moments between them. It starts with no claim
  // outstanding, and time never goes back.
  ghost predicate IsRun(ss: seq<Links>, ms: seq<Moment>) {
    && |ss| == |ms| + 1
    && (forall a :: a in ss[0].rows ==> Unclaimed(ss[0].rows[a]))
    && (forall i :: 0 <= i < |ms| ==> Follows(ss, ms, i))
    && forall i, j :: 0 <= i <= j < |ms| ==> InTime(ms, i, j)
  }

  ghost predicate Follows(ss: seq<Links>, ms: seq<Moment>, i: nat)
    requires i < |ms| < |ss|
  {
    Legal(ss[i], ms[i]) && ss[i + 1] == Step(ss[i], ms[i])
  }

  ghost predicate InTime(ms: seq<Moment>, i: nat, j: nat)
    requires i <= j < |ms|
  {
    ms[i].now <= ms[j].now
  }

  // Every moment before step i lies no later than `now`.
  ghost predicate Past(ms: seq<Moment>, i: nat, now: Time)
    requires i <= |ms|
  {
    forall k :: 0 <= k < i ==> ms[k].now <= now
  }

  predicate Unclaimed(p: Progress) {
    p.token == None && p.lease == None
  }

  // The batch of this moment takes the author.
  predicate Issues(s: Links, m: Moment, a: AuthorId) {
    m.event.TakeBatch? && a in m.event.picked && a in s.rows
  }

  // The claim that batch hands out for the author.
  function Issued(s: Links, m: Moment, a: AuthorId): Claim
    requires Issues(s, m, a)
  {
    ClaimOf(s.rows, a, s.nextToken + IndexOf(m.event.picked, a), m.event.until)
  }

  // The moment takes the author's claim away without issuing another.
  predicate Voids(s: Links, m: Moment, a: AuthorId) {
    a in s.rows &&
    match m.event
    case Enqueue(b, _, why) => b == a && why == UserReResolve
    case Revoke(b, _) => b == a
    case Advance(claim, _) => claim.author == a && HoldsIn(s.rows, claim, m.now)
    case EvidenceChanged(b, user) => b == a && s.rows[a].user == user
    case Delete(b) => b == a
    case _ => false
  }

  // What a moment means for one author's claim.
  datatype Mark = Issue | Void | Quiet

  ghost function MarkOf(s: Links, m: Moment, a: AuthorId): Mark {
    if Issues(s, m, a) then Issue else if Voids(s, m, a) then Void else Quiet
  }

  ghost function Marks(ss: seq<Links>, ms: seq<Moment>, a: AuthorId): seq<Mark>
    requires |ms| < |ss|
  {
    seq(|ms|, i requires 0 <= i < |ms| => MarkOf(ss[i], ms[i], a))
  }

  ghost function LastIssue(marks: seq<Mark>, i: nat): Option<nat>
    requires i <= |marks|
  {
    if i == 0 then None
    else match marks[i - 1]
      case Issue => Some(i - 1)
      case Void => None
      case Quiet => LastIssue(marks, i - 1)
  }

  lemma {:induction false} LastIssueIsLast(marks: seq<Mark>, i: nat)
    requires i <= |marks| && LastIssue(marks, i).Some?
    ensures var j := LastIssue(marks, i).value;
            j < i && marks[j] == Issue && forall k :: j < k < i ==> marks[k] == Quiet
  {
    if marks[i - 1] == Quiet {
      LastIssueIsLast(marks, i - 1);
    }
  }

  // The moment of the claim that stands before step i, if one does.
  ghost function Standing(ss: seq<Links>, ms: seq<Moment>, i: nat, a: AuthorId): Option<nat>
    requires i <= |ms| < |ss|
  {
    LastIssue(Marks(ss, ms, a), i)
  }

  // It was issued at that moment, and nothing reissued or voided it since.
  lemma StandingIsLast(ss: seq<Links>, ms: seq<Moment>, i: nat, a: AuthorId, k: nat)
    requires i <= |ms| < |ss| && Standing(ss, ms, i, a).Some?
    ensures var j := Standing(ss, ms, i, a).value;
            j < i && Issues(ss[j], ms[j], a)
            && (j < k < i ==> !Issues(ss[k], ms[k], a) && !Voids(ss[k], ms[k], a))
  {
    var marks, j := Marks(ss, ms, a), Standing(ss, ms, i, a).value;
    LastIssueIsLast(marks, i);
    assert marks[j] == MarkOf(ss[j], ms[j], a);
    assert j < k < i ==> marks[k] == MarkOf(ss[k], ms[k], a);
  }

  // What a row shows of the claim that stands on it.
  ghost predicate Shows(p: Progress, claim: Claim) {
    p.token == Some(claim.token) && p.lease == Some(claim.leaseUntil) && p.user == claim.user
  }

  // TakeBatch changes exactly the rows it takes.
  lemma TakenRow(s: Links, m: Moment, a: AuthorId)
    requires Legal(s, m) && m.event.TakeBatch? && a in s.rows
    ensures a in Step(s, m).rows
    ensures Step(s, m).rows[a]
         == if Issues(s, m, a) then s.rows[a].Taken(Issued(s, m, a).token, m.event.until) else s.rows[a]
  {
    BatchAt(s, m.event.picked, m.event.until, a);
  }

  // A moment that neither issues nor voids leaves token, lease and owner alone.
  lemma OtherMoment(s: Links, m: Moment, a: AuthorId)
    requires Legal(s, m) && !Issues(s, m, a) && !Voids(s, m, a) && a in Step(s, m).rows
    ensures if a in s.rows
      then var p, q := s.rows[a], Step(s, m).rows[a];
           p.token == q.token && p.lease == q.lease && p.user == q.user
      else Unclaimed(Step(s, m).rows[a])
  {
    if m.event.TakeBatch? {
      assert Step(s, m).rows.Keys == s.rows.Keys;
      TakenRow(s, m, a);
    }
  }

  lemma VoidedMoment(s: Links, m: Moment, a: AuthorId)
    requires Legal(s, m) && Voids(s, m, a) && a in Step(s, m).rows
    ensures Unclaimed(Step(s, m).rows[a])
  {}

  lemma RowsStay(s: Links, m: Moment, a: AuthorId)
    requires Legal(s, m) && a in s.rows && m.event != Delete(a)
    ensures a in Step(s, m).rows
  {}

  ghost predicate Carries(rows: Rows, a: AuthorId, standing: Option<Claim>) {
    if a in rows
    then (match standing case None => Unclaimed(rows[a]) case Some(claim) => Shows(rows[a], claim))
    else standing == None
  }

  ghost function Next(s: Links, m: Moment, a: AuthorId, standing: Option<Claim>): Option<Claim> {
    if Issues(s, m, a) then Some(Issued(s, m, a)) else if Voids(s, m, a) then None else standing
  }

  lemma CarryStep(s: Links, m: Moment, a: AuthorId, standing: Option<Claim>)
    requires Legal(s, m) && Carries(s.rows, a, standing)
    ensures Carries(Step(s, m).rows, a, Next(s, m, a, standing))
  {
    if Issues(s, m, a) {
      TakenRow(s, m, a);
    } else if a in s.rows && m.event != Delete(a) {
      RowsStay(s, m, a);
      if Voids(s, m, a) { VoidedMoment(s, m, a); } else { OtherMoment(s, m, a); }
    } else if a in Step(s, m).rows {
      OtherMoment(s, m, a);
    }
  }

  ghost function StandingClaim(ss: seq<Links>, ms: seq<Moment>, i: nat, a: AuthorId): Option<Claim>
    requires i <= |ms| < |ss|
  {
    match Standing(ss, ms, i, a)
    case None => None
    case Some(j) => if j < |ms| && Issues(ss[j], ms[j], a) then Some(Issued(ss[j], ms[j], a)) else None
  }

  lemma StandingNext(ss: seq<Links>, ms: seq<Moment>, i: nat, a: AuthorId)
    requires 0 < i <= |ms| < |ss|
    ensures StandingClaim(ss, ms, i, a) == Next(ss[i - 1], ms[i - 1], a, StandingClaim(ss, ms, i - 1, a))
  {
    var s, m := ss[i - 1], ms[i - 1];
    assert Marks(ss, ms, a)[i - 1] == MarkOf(s, m, a);
    if Issues(s, m, a) {
      assert Standing(ss, ms, i, a) == Some(i - 1);
    } else if Voids(s, m, a) {
      assert Standing(ss, ms, i, a) == None;
    } else {
      assert Standing(ss, ms, i, a) == Standing(ss, ms, i - 1, a);
    }
  }

  lemma {:induction false} RunCarries(ss: seq<Links>, ms: seq<Moment>, i: nat, a: AuthorId)
    requires IsRun(ss, ms) && i <= |ms|
    ensures Carries(ss[i].rows, a, StandingClaim(ss, ms, i, a))
  {
    if i > 0 {
      RunCarries(ss, ms, i - 1, a);
      assert Follows(ss, ms, i - 1);
      CarryStep(ss[i - 1], ms[i - 1], a, StandingClaim(ss, ms, i - 1, a));
      StandingNext(ss, ms, i, a);
    }
  }

  // The row of every author carries exactly the standing claim.
  lemma Tracks(ss: seq<Links>, ms: seq<Moment>, i: nat, a: AuthorId)
    requires IsRun(ss, ms) && i <= |ms|
    ensures a in ss[i].rows ==>
      match Standing(ss, ms, i, a)
      case None => Unclaimed(ss[i].rows[a])
      case Some(j) => j < i && Issues(ss[j], ms[j], a) && Shows(ss[i].rows[a], Issued(ss[j], ms[j], a))
    ensures a !in ss[i].rows ==> Standing(ss, ms, i, a) == None
  {
    RunCarries(ss, ms, i, a);
    if Standing(ss, ms, i, a).Some? {
      StandingIsLast(ss, ms, i, a, 0);
    }
  }

  // The claim was handed out at moment j, under the same token and owner.
  ghost predicate HandedOut(ss: seq<Links>, ms: seq<Moment>, j: nat, claim: Claim)
    requires j < |ms| < |ss|
  {
    Issues(ss[j], ms[j], claim.author)
    && Issued(ss[j], ms[j], claim.author).token == claim.token
    && Issued(ss[j], ms[j], claim.author).user == claim.user
  }

  ghost predicate Unvoided(ss: seq<Links>, ms: seq<Moment>, j: nat, i: nat, a: AuthorId)
    requires j < i <= |ms| < |ss|
  {
    forall k :: j < k < i ==> !Voids(ss[k], ms[k], a)
  }

  ghost predicate Authority(ss: seq<Links>, ms: seq<Moment>, j: nat, i: nat, claim: Claim, now: Time)
    requires i <= |ms| < |ss|
  {
    j < i && HandedOut(ss, ms, j, claim) && now < ms[j].event.until && Unvoided(ss, ms, j, i, claim.author)
  }

  lemma StandingIsUnvoided(ss: seq<Links>, ms: seq<Moment>, i: nat, a: AuthorId)
    requires i <= |ms| < |ss| && Standing(ss, ms, i, a).Some?
    ensures var j := Standing(ss, ms, i, a).value; j < i && Unvoided(ss, ms, j, i, a)
  {
    var j := Standing(ss, ms, i, a).value;
    StandingIsLast(ss, ms, i, a, 0);
    forall k | j < k < i ensures !Voids(ss[k], ms[k], a) {
      StandingIsLast(ss, ms, i, a, k);
    }
  }

  // A write is accepted exactly when some earlier batch handed its claim out,
  // that lease has not run out, and nothing voided it since.
  lemma AcceptedIff(ss: seq<Links>, ms: seq<Moment>, i: nat, claim: Claim, now: Time)
    requires IsRun(ss, ms) && i <= |ms| && Past(ms, i, now)
    ensures HoldsIn(ss[i].rows, claim, now) <==> exists j :: Authority(ss, ms, j, i, claim, now)
  {
    var a := claim.author;
    Tracks(ss, ms, i, a);
    if HoldsIn(ss[i].rows, claim, now) {
      var j := Standing(ss, ms, i, a).value;
      StandingIsUnvoided(ss, ms, i, a);
      assert Authority(ss, ms, j, i, claim, now);
    }
    if exists j :: Authority(ss, ms, j, i, claim, now) {
      var j :| Authority(ss, ms, j, i, claim, now);
      UnvoidedStands(ss, ms, j, i, a, now);
      StillThere(ss, ms, j, i, a);
    }
  }

  // While a lease lasts and nothing voids it, no batch takes the author again.
  lemma {:induction false} UnvoidedStands(
      ss: seq<Links>, ms: seq<Moment>, j: nat, i: nat, a: AuthorId, now: Time)
    requires IsRun(ss, ms) && j < i <= |ms| && Past(ms, i, now)
    requires Issues(ss[j], ms[j], a) && Unvoided(ss, ms, j, i, a) && now < ms[j].event.until
    ensures Standing(ss, ms, i, a) == Some(j)
  {
    if j < i - 1 {
      UnvoidedStands(ss, ms, j, i - 1, a, now);
      LeasedIsNotIssued(ss, ms, j, i - 1, a, now);
    }
  }

  lemma LeasedIsNotIssued(ss: seq<Links>, ms: seq<Moment>, j: nat, i: nat, a: AuthorId, now: Time)
    requires IsRun(ss, ms) && j < i < |ms| && ms[i].now <= now
    requires Standing(ss, ms, i, a) == Some(j) && Issues(ss[j], ms[j], a) && now < ms[j].event.until
    ensures !Issues(ss[i], ms[i], a)
  {
    Tracks(ss, ms, i, a);
    assert Follows(ss, ms, i);
    assert a in ss[i].rows ==> ss[i].rows[a].Leased(ms[i].now);
  }

  lemma {:induction false} StillThere(ss: seq<Links>, ms: seq<Moment>, j: nat, i: nat, a: AuthorId)
    requires IsRun(ss, ms) && j < i <= |ms| && Issues(ss[j], ms[j], a) && Unvoided(ss, ms, j, i, a)
    ensures a in ss[i].rows
  {
    assert Follows(ss, ms, i - 1);
    if j == i - 1 {
      TakenRow(ss[j], ms[j], a);
    } else {
      StillThere(ss, ms, j, i - 1, a);
      assert !Voids(ss[i - 1], ms[i - 1], a);
      RowsStay(ss[i - 1], ms[i - 1], a);
    }
  }

  // ------------------------------------------------------------------
  // Tokens are handed out once, so claims on one author never interleave
  // ------------------------------------------------------------------

  lemma {:induction false} TokensGrow(ss: seq<Links>, ms: seq<Moment>, i: nat, j: nat)
    requires IsRun(ss, ms) && i <= j <= |ms|
    ensures ss[i].nextToken <= ss[j].nextToken
  {
    if i < j {
      TokensGrow(ss, ms, i, j - 1);
      assert Follows(ss, ms, j - 1);
    }
  }

  lemma TokenSpent(s: Links, m: Moment, a: AuthorId)
    requires Legal(s, m) && Issues(s, m, a)
    ensures s.nextToken <= Issued(s, m, a).token < Step(s, m).nextToken
  {}

  lemma OneIssuePerBatch(s: Links, m: Moment, a: AuthorId, b: AuthorId)
    requires Issues(s, m, a) && Issues(s, m, b) && Issued(s, m, a).token == Issued(s, m, b).token
    ensures a == b
  {
    assert m.event.picked[IndexOf(m.event.picked, a)] == a;
  }

  lemma OneIssuePerToken(ss: seq<Links>, ms: seq<Moment>, i: nat, j: nat, a: AuthorId, b: AuthorId)
    requires IsRun(ss, ms) && i <= j < |ms| && Issues(ss[i], ms[i], a) && Issues(ss[j], ms[j], b)
    requires Issued(ss[i], ms[i], a).token == Issued(ss[j], ms[j], b).token
    ensures i == j && a == b
  {
    assert Follows(ss, ms, i) && Follows(ss, ms, j);
    TokenSpent(ss[j], ms[j], b);
    if i < j {
      TokensGrow(ss, ms, i + 1, j);
      TokenSpent(ss[i], ms[i], a);
    } else {
      OneIssuePerBatch(ss[i], ms[i], a, b);
    }
  }

  // The standing claim behind an accepted write is the one with its token.
  lemma TracksBack(ss: seq<Links>, ms: seq<Moment>, j: nat, i: nat, claim: Claim)
    requires IsRun(ss, ms) && j < |ms| && i <= |ms| && HandedOut(ss, ms, j, claim)
    requires claim.author in ss[i].rows && ss[i].rows[claim.author].token == Some(claim.token)
    ensures j < i && Standing(ss, ms, i, claim.author) == Some(j)
  {
    var a := claim.author;
    Tracks(ss, ms, i, a);
    var n := Standing(ss, ms, i, a).value;
    if n <= j {
      OneIssuePerToken(ss, ms, n, j, a, a);
    } else {
      OneIssuePerToken(ss, ms, j, n, a, a);
    }
  }

  // Once a later claim of the author is out, nothing written under an earlier
  // one is accepted any more.
  lemma ClaimsNeverInterleave(
      ss: seq<Links>, ms: seq<Moment>, first: nat, second: nat, i: nat, claim: Claim, now: Time)
    requires IsRun(ss, ms) && first < second < |ms| && i <= |ms| && Past(ms, i, now)
    requires HandedOut(ss, ms, first, claim) && Issues(ss[second], ms[second], claim.author)
    requires HoldsIn(ss[i].rows, claim, now)
    ensures first < i <= second
  {
    var a := claim.author;
    TracksBack(ss, ms, first, i, claim);
    StandingIsLast(ss, ms, i, a, second);
  }

  // Whatever takes a claim away - a user's re-resolve, changed work evidence, a
  // revocation, its own advance - takes it away for good.
  lemma VoidedClaimIsDead(
      ss: seq<Links>, ms: seq<Moment>, j: nat, k: nat, i: nat, claim: Claim, now: Time)
    requires IsRun(ss, ms) && j < k < i <= |ms| && Past(ms, i, now)
    requires HandedOut(ss, ms, j, claim) && Voids(ss[k], ms[k], claim.author)
    ensures !HoldsIn(ss[i].rows, claim, now)
  {
    if HoldsIn(ss[i].rows, claim, now) {
      TracksBack(ss, ms, j, i, claim);
      StandingIsUnvoided(ss, ms, i, claim.author);
    }
  }

  // The moment frees the author: no claim is left, and the work is due at once.
  predicate Frees(s: Links, m: Moment, a: AuthorId) {
    match m.event
    case Enqueue(b, _, why) => b == a && why == UserReResolve
    case Revoke(b, _) => b == a
    case EvidenceChanged(b, user) => b == a && a in s.rows && s.rows[a].user == user
    case _ => false
  }

  ghost predicate Free(rows: Rows, a: AuthorId, now: Time) {
    a in rows && Unclaimed(rows[a]) && rows[a].nextAt <= now
  }

  lemma FreeStep(s: Links, m: Moment, a: AuthorId)
    requires Legal(s, m) && !Issues(s, m, a) && m.event != Delete(a)
    requires Frees(s, m, a) || Free(s.rows, a, m.now)
    ensures Free(Step(s, m).rows, a, m.now)
  {
    if m.event.TakeBatch? { TakenRow(s, m, a); }
  }

  // A freed author stays due, at every later moment, until a batch takes it.
  lemma {:induction false} FreedStaysDue(ss: seq<Links>, ms: seq<Moment>, k: nat, i: nat, a: AuthorId, now: Time)
    requires IsRun(ss, ms) && k < i <= |ms| && Past(ms, i, now) && Frees(ss[k], ms[k], a)
    requires Kept(ms, k, i, a) && forall n :: k < n < i ==> !Issues(ss[n], ms[n], a)
    ensures Free(ss[i].rows, a, ms[i - 1].now) && a in Due(ss[i].rows, now)
  {
    assert Follows(ss, ms, i - 1);
    if k < i - 1 {
      FreedStaysDue(ss, ms, k, i - 1, a, now);
      assert InTime(ms, i - 2, i - 1);
    }
    FreeStep(ss[i - 1], ms[i - 1], a);
  }

  // ------------------------------------------------------------------
  // No lost wake-up
  // ------------------------------------------------------------------

  // A name that lands while a worker holds the author survives that worker: its
  // advance leaves the author dirty, due no later than before, and claimable.
  lemma StaleAdvanceStaysDirty(ss: seq<Links>, ms: seq<Moment>, j: nat, k: nat, i: nat, a: AuthorId)
    requires IsRun(ss, ms) && j < k < i < |ms| && Issues(ss[j], ms[j], a)
    requires ms[k].event == Observe(a) && ms[i].event.Advance? && ms[i].event.claim == Issued(ss[j], ms[j], a)
    requires HoldsIn(ss[i].rows, ms[i].event.claim, ms[i].now)
    ensures a in ss[i + 1].rows && ss[i + 1].rows[a].dirty && ss[i + 1].rows[a].nextAt <= ss[i].rows[a].nextAt
    ensures a in Due(ss[i + 1].rows, ms[i].now)
  {
    var claim := ms[i].event.claim;
    TracksBack(ss, ms, j, i, claim);
    NotDeleted(ss, ms, j, i, a);
    DisplayGenerationGrows(ss, ms, j, k, a);
    assert Follows(ss, ms, k) && Follows(ss, ms, i);
    DisplayGenerationGrows(ss, ms, k + 1, i, a);
    AdvancedStale(ss[i].rows[a], claim, ms[i].event.update, ms[i].now);
  }

  lemma AdvancedStale(p: Progress, claim: Claim, update: Update, now: Time)
    requires p.displayed != claim.displayed
    ensures var q := p.Advanced(claim, update, now);
            q.dirty && q.nextAt <= p.nextAt && q.nextAt <= now && q.IsDue(now)
  {}

  // Workers present claims as `claim_due` returned them.
  ghost predicate Genuine(ss: seq<Links>, ms: seq<Moment>) {
    |ms| < |ss| &&
    forall i :: 0 <= i < |ms| && ms[i].event.Advance? ==> Returned(ss, ms, i, ms[i].event.claim)
  }

  ghost predicate Returned(ss: seq<Links>, ms: seq<Moment>, i: nat, claim: Claim)
    requires i < |ms| < |ss|
  {
    exists j :: 0 <= j < i && Issues(ss[j], ms[j], claim.author) && claim == Issued(ss[j], ms[j], claim.author)
  }

  // At moment m an advance cleared the flag under the claim of moment j.
  ghost predicate ClearedBy(ss: seq<Links>, ms: seq<Moment>, j: nat, m: nat, a: AuthorId)
    requires m < |ms| < |ss|
  {
    && j < m && ms[m].event.Advance? && ms[m].event.claim.author == a
    && HoldsIn(ss[m].rows, ms[m].event.claim, ms[m].now)
    && Issues(ss[j], ms[j], a) && ms[m].event.claim == Issued(ss[j], ms[j], a)
    && !ms[m].event.update.dirty
  }

  ghost predicate Kept(ms: seq<Moment>, i: nat, j: nat, a: AuthorId)
    requires i <= j <= |ms|
  {
    forall k :: i <= k < j ==> ms[k].event != Delete(a)
  }

  lemma {:induction false} DisplayGenerationGrows(ss: seq<Links>, ms: seq<Moment>, i: nat, j: nat, a: AuthorId)
    requires IsRun(ss, ms) && i <= j <= |ms| && a in ss[i].rows && Kept(ms, i, j, a)
    ensures a in ss[j].rows && ss[i].rows[a].displayed <= ss[j].rows[a].displayed
  {
    if i < j {
      DisplayGenerationGrows(ss, ms, i, j - 1, a);
      assert Follows(ss, ms, j - 1);
      RowsStay(ss[j - 1], ms[j - 1], a);
      if ms[j - 1].event.TakeBatch? { TakenRow(ss[j - 1], ms[j - 1], a); }
    }
  }

  // What one moment does to the flag.
  lemma FlagStep(s: Links, m: Moment, a: AuthorId)
    requires Legal(s, m) && a in s.rows && s.rows[a].dirty && a in Step(s, m).rows && !Step(s, m).rows[a].dirty
    ensures m.event.Advance? && m.event.claim.author == a && HoldsIn(s.rows, m.event.claim, m.now)
    ensures m.event.claim.displayed == s.rows[a].displayed && !m.event.update.dirty
  {
    if m.event.TakeBatch? { TakenRow(s, m, a); }
  }

  // A claim issued after moment k cleared the flag before step i.
  ghost predicate Seen(ss: seq<Links>, ms: seq<Moment>, k: nat, i: nat, a: AuthorId)
    requires i <= |ms| < |ss|
  {
    exists j, m :: k < j < m < i && ClearedBy(ss, ms, j, m, a)
  }

  lemma SeenLater(ss: seq<Links>, ms: seq<Moment>, k: nat, i: nat, a: AuthorId)
    requires i < |ms| < |ss| && Seen(ss, ms, k, i, a)
    ensures Seen(ss, ms, k, i + 1, a)
  {
    var j, m :| k < j < m < i && ClearedBy(ss, ms, j, m, a);
  }

  lemma ObservedIsDirty(s: Links, a: AuthorId, now: Time)
    requires a in s.rows
    ensures a in Step(s, Moment(now, Observe(a))).rows && Step(s, Moment(now, Observe(a))).rows[a].dirty
  {}

  // If the flag is clear, every name observation before has been seen: a claim
  // issued after it was the one whose advance cleared the flag.
  lemma {:induction false} NoLostWakeUp(ss: seq<Links>, ms: seq<Moment>, k: nat, i: nat, a: AuthorId)
    requires IsRun(ss, ms) && Genuine(ss, ms) && k < i <= |ms|
    requires ms[k].event == Observe(a) && a in ss[k].rows && Kept(ms, k, i, a)
    ensures a in ss[i].rows
    ensures !ss[i].rows[a].dirty ==> Seen(ss, ms, k, i, a)
  {
    DisplayGenerationGrows(ss, ms, k, i, a);
    if k == i - 1 {
      ObservedIsDirty(ss[k], a, ms[k].now);
      assert Follows(ss, ms, k) && ms[k] == Moment(ms[k].now, Observe(a));
    } else if !ss[i].rows[a].dirty {
      NoLostWakeUp(ss, ms, k, i - 1, a);
      if ss[i - 1].rows[a].dirty {
        ClearedAfter(ss, ms, k, i - 1, a);
      } else {
        SeenLater(ss, ms, k, i - 1, a);
      }
    }
  }

  lemma ClearedAfter(ss: seq<Links>, ms: seq<Moment>, k: nat, m: nat, a: AuthorId)
    requires IsRun(ss, ms) && Genuine(ss, ms) && k < m < |ms|
    requires ms[k].event == Observe(a) && a in ss[k].rows && Kept(ms, k, m + 1, a)
    requires a in ss[m].rows && ss[m].rows[a].dirty && a in ss[m + 1].rows && !ss[m + 1].rows[a].dirty
    ensures Seen(ss, ms, k, m + 1, a)
  {
    assert Follows(ss, ms, m);
    FlagStep(ss[m], ms[m], a);
    var claim := ms[m].event.claim;
    assert Returned(ss, ms, m, claim);
    var j: nat :| j < m && Issues(ss[j], ms[j], a) && claim == Issued(ss[j], ms[j], a);
    IssuedAfter(ss, ms, k, j, m, a);
    assert ClearedBy(ss, ms, j, m, a);
  }

  // A claim that knows the display generation of now was issued after the
  // last observation.
  lemma IssuedAfter(ss: seq<Links>, ms: seq<Moment>, k: nat, j: nat, m: nat, a: AuthorId)
    requires IsRun(ss, ms) && k < m < |ms| && j < m
    requires ms[k].event == Observe(a) && a in ss[k].rows && Kept(ms, k, m + 1, a)
    requires Issues(ss[j], ms[j], a) && a in ss[m].rows
    requires Issued(ss[j], ms[j], a).displayed == ss[m].rows[a].displayed
    requires ss[m].rows[a].token == Some(Issued(ss[j], ms[j], a).token)
    ensures k < j
  {
    if j <= k {
      TracksBack(ss, ms, j, m, Issued(ss[j], ms[j], a));
      NotDeleted(ss, ms, j, m, a);
      DisplayGenerationGrows(ss, ms, j, k, a);
      assert Follows(ss, ms, k);
      DisplayGenerationGrows(ss, ms, k + 1, m, a);
    }
  }

  lemma NotDeleted(ss: seq<Links>, ms: seq<Moment>, j: nat, i: nat, a: AuthorId)
    requires IsRun(ss, ms) && j < i <= |ms| && Standing(ss, ms, i, a) == Some(j)
    ensures Kept(ms, j, i, a)
  {
    StandingIsUnvoided(ss, ms, i, a);
    StandingIsLast(ss, ms, i, a, 0);
    forall k | j <= k < i ensures ms[k].event != Delete(a) {
      if j < k {
        StillThere(ss, ms, j, k, a);
        assert !Voids(ss[k], ms[k], a);
      }
    }
  }
}
