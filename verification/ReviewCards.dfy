// Review cards and the dismissal ledger
// (crates/livrarr-db/src/identity_layer.rs:401-528, 1784-1881, 1935-2210,
// 4236-4455; crates/livrarr-domain/src/identity_layer/dismissal.rs): mint,
// reuse or suppress, dismiss, resolve, revoke.
module ReviewCards {
  import opened Basics
  import opened Sorting

  type UserId = int
  type WorkId = int
  type CardId = int
  type EditionId = int

  // (provider, kind, provider_scoped_id).
  type RouteIdentity = (string, string, string)

  // A proposed identity with the presentation fields that a key leaves out.
  datatype Proposed = Proposed(
    main: string, subtitle: string, volume: string, author: int, routes: seq<RouteIdentity>, shownTitle: string)

  datatype OtherKind =
    | IdentityConflict | FieldResolution | ContributorOrder | ImportIdentity | MigrationRepair | InvariantRepair

  // `SettlementReviewCard`; the kinds without a dismissal key share one case.
  datatype Card =
    | GroupIdentity(works: seq<WorkId>, proposed: Option<Proposed>, choices: seq<string>)
    | PendingRoute(work: WorkId, provider: string, kind: string, value: string)
    | EditionEvidence(edition: EditionId, evidence: seq<int>)
    | Other(which: OtherKind, scope: Option<WorkId>)

  datatype GroupProposed = GroupProposed(
    main: string, subtitle: string, volume: string, author: int, routes: set<RouteIdentity>)

  // `ReviewDismissalKeyV1`. Its ordered, duplicate-free lists are sets here.
  datatype Key =
    | GroupKey(user: UserId, works: set<WorkId>, proposed: Option<GroupProposed>, choices: set<string>)
    | RouteKey(user: UserId, work: WorkId, provider: string, kind: string, value: string)
    | EditionKey(user: UserId, edition: EditionId)
  {
    function WorkIds(): set<WorkId> {
      match this
      case GroupKey(_, works, _, _) => works
      case RouteKey(_, work, _, _, _) => {work}
      case EditionKey(_, _) => {}
    }

    // The UPDATE of `revoke_identity_review_dismissals` reaches it.
    predicate RevokedBy(u: UserId, w: WorkId) {
      user == u && !EditionKey? && w in WorkIds()
    }
  }

  function Elements<T>(s: seq<T>): set<T> {
    set x | x in s
  }

  function Positive(w: Option<WorkId>): Option<WorkId> {
    if w.Some? && w.value > 0 then w else None
  }

  function DurableWork(work: WorkId, fallback: Option<WorkId>): Option<WorkId> {
    if work > 0 then Some(work) else Positive(fallback)
  }

  // `ReviewDismissalKeyV1::from_card`.
  function KeyOf(user: UserId, card: Card, fallback: Option<WorkId>): Option<Key> {
    match card
    case GroupIdentity(works, proposed, choices) =>
      var shape := match proposed
        case None => None
        case Some(p) => Some(GroupProposed(p.main, p.subtitle, p.volume, p.author, Elements(p.routes)));
      Some(GroupKey(user, Elements(works), shape, Elements(choices)))
    case PendingRoute(work, provider, kind, value) =>
      (match DurableWork(work, fallback)
       case None => None
       case Some(durable) => Some(RouteKey(user, durable, provider, kind, Trim(value))))
    case EditionEvidence(edition, _) => Some(EditionKey(user, edition))
    case Other(_, _) => None
  }

  // `durable_review_card_work_scope`: the work id the card is stored with.
  function StoredWork(card: Card, fallback: Option<WorkId>): Option<WorkId> {
    var own := match card
      case GroupIdentity(works, _, _) => if works == [] then None else Some(works[0])
      case PendingRoute(work, _, _, _) => Some(work)
      case EditionEvidence(_, _) => None
      case Other(_, scope) => scope;
    if Positive(own).Some? then own else Positive(fallback)
  }

  // A card keeps its key in storage: recomputing it with the stored work id
  // gives what the proposal's work id gave.
  lemma KeyFromStorage(user: UserId, card: Card, fallback: Option<WorkId>)
    ensures KeyOf(user, card, StoredWork(card, fallback)) == KeyOf(user, card, fallback)
  {}

  datatype CardStatus = Pending | Resolved | Cancelled

  datatype Row = Row(user: UserId, work: Option<WorkId>, generation: int, status: CardStatus, card: Card) {
    function Key(): Option<Key> {
      KeyOf(user, card, work)
    }
  }

  // UNIQUE(user_id, kind, key_version, canonical_key).
  datatype Desk = Desk(
    cards: map<CardId, Row>, nextCard: CardId, standing: map<Key, bool>, works: set<(UserId, WorkId)>)

  // A dismissal that is not revoked; revoked ones stay on record as false.
  predicate Standing(d: Desk, key: Key) {
    key in d.standing && d.standing[key]
  }

  function PendingWith(cards: map<CardId, Row>, key: Key): set<CardId> {
    set c | c in cards && cards[c].status == Pending && cards[c].Key() == Some(key)
  }

  ghost predicate Valid(d: Desk) {
    forall c :: c in d.cards ==> c < d.nextCard
  }

  ghost predicate OnePerKey(d: Desk) {
    forall a, b :: a in d.cards && b in d.cards && AskTheSame(d.cards[a], d.cards[b]) ==> a == b
  }

  predicate AskTheSame(a: Row, b: Row) {
    a.status == Pending && b.status == Pending && a.Key().Some? && a.Key() == b.Key()
  }

  // ------------------------------------------------------------------
  // Mint, reuse or suppress
  // ------------------------------------------------------------------

  datatype Origin = WorkUpdateRekey | ManualWorkMerge | AffirmPendingRoute | AnyOther

  // `review_mint_origin_is_inline`.
  predicate IsInline(o: Origin) {
    o != AnyOther
  }

  // `preflight`: a suppression decision taken by an earlier read.
  datatype Proposal = Proposal(
    user: UserId, work: Option<WorkId>, generation: int, card: Card, origin: Origin, explicitChoice: bool,
    preflight: Option<bool>)
  {
    function Key(): Option<Key> {
      KeyOf(user, card, work)
    }

    predicate Bypasses() {
      explicitChoice || IsInline(origin)
    }
  }

  // `review_card_suppression_in_tx`.
  predicate Suppressed(d: Desk, p: Proposal) {
    p.Key().Some? && !p.Bypasses() && Standing(d, p.Key().value)
  }

  predicate Decision(d: Desk, p: Proposal) {
    match p.preflight
    case Some(suppressed) => suppressed
    case None => Suppressed(d, p)
  }

  datatype Outcome = Minted(id: CardId) | Reused(id: CardId) | SuppressedByDismissal | Refused

  // The insert fails on a work that does not exist, and a machine's route card
  // also when it names no work to notify about.
  predicate CanInsert(d: Desk, p: Proposal) {
    match StoredWork(p.card, p.work)
    case Some(w) => (p.user, w) in d.works
    case None => !(p.card.PendingRoute? && !IsInline(p.origin))
  }

  const ById: (CardId, CardId) -> bool := (a: CardId, b: CardId) => a <= b

  function Matches(cards: map<CardId, Row>, key: Key): seq<CardId> {
    InOrder(PendingWith(cards, key), ById)
  }

  function Cancel(cards: map<CardId, Row>, ids: set<CardId>): map<CardId, Row> {
    map c | c in cards :: if c in ids && cards[c].status == Pending then cards[c].(status := Cancelled) else cards[c]
  }

  function MintOutcome(d: Desk, p: Proposal): Outcome {
    if Decision(d, p) then SuppressedByDismissal
    else if p.Key().Some? && PendingWith(d.cards, p.Key().value) != {} then Reused(Matches(d.cards, p.Key().value)[0])
    else if CanInsert(d, p) then Minted(d.nextCard) else Refused
  }

  function Mint(d: Desk, p: Proposal): Desk {
    match MintOutcome(d, p)
    case Minted(id) =>
      d.(cards := d.cards[id := Row(p.user, StoredWork(p.card, p.work), p.generation, Pending, p.card)],
         nextCard := d.nextCard + 1)
    case Reused(id) => d.(cards := Cancel(d.cards, PendingWith(d.cards, p.Key().value) - {id}))
    case SuppressedByDismissal => d
    case Refused => d
  }

  // However many duplicates history left, a mint that goes through ends with
  // exactly one pending card of its key; a suppressed one changes nothing.
  lemma MintLeavesOne(d: Desk, p: Proposal)
    requires Valid(d) && p.Key().Some?
    ensures match MintOutcome(d, p)
            case Minted(id) => PendingWith(Mint(d, p).cards, p.Key().value) == {id} && id !in d.cards
            case Reused(id) => PendingWith(Mint(d, p).cards, p.Key().value) == {id} && id in d.cards
            case SuppressedByDismissal => Mint(d, p) == d
            case Refused => Mint(d, p) == d && PendingWith(d.cards, p.Key().value) == {}
  {
    match MintOutcome(d, p) {
      case Minted(id) => MintedIsOne(d, p);
      case Reused(id) => ReusedIsOne(d.cards, p.Key().value, id);
      case _ =>
    }
  }

  lemma MintedIsOne(d: Desk, p: Proposal)
    requires Valid(d) && p.Key().Some? && PendingWith(d.cards, p.Key().value) == {}
    ensures PendingWith(d.cards[d.nextCard := Row(p.user, StoredWork(p.card, p.work), p.generation, Pending, p.card)],
                        p.Key().value) == {d.nextCard}
  {
    KeyFromStorage(p.user, p.card, p.work);
    var row := Row(p.user, StoredWork(p.card, p.work), p.generation, Pending, p.card);
    var after := d.cards[d.nextCard := row];
    assert row.Key() == p.Key();
    forall c ensures c in PendingWith(after, p.Key().value) <==> c == d.nextCard {
      assert c !in PendingWith(d.cards, p.Key().value);
    }
  }

  lemma ReusedIsOne(cards: map<CardId, Row>, key: Key, id: CardId)
    requires PendingWith(cards, key) != {} && id == Matches(cards, key)[0]
    ensures id in cards && PendingWith(Cancel(cards, PendingWith(cards, key) - {id}), key) == {id}
  {
    assert Matches(cards, key)[0] in Matches(cards, key);
    CancelLeaves(cards, PendingWith(cards, key) - {id}, key);
  }

  lemma CancelLeaves(cards: map<CardId, Row>, ids: set<CardId>, key: Key)
    ensures PendingWith(Cancel(cards, ids), key) == PendingWith(cards, key) - ids
  {}

  lemma MintOtherKeys(d: Desk, p: Proposal, key: Key)
    requires Valid(d) && p.Key() != Some(key)
    ensures PendingWith(Mint(d, p).cards, key) == PendingWith(d.cards, key)
  {
    KeyFromStorage(p.user, p.card, p.work);
  }

  // ------------------------------------------------------------------
  // Dismiss, resolve, revoke
  // ------------------------------------------------------------------

  datatype Actor =
    | AuthenticatedUser(user: UserId)
    | CutoverOperator(installation: string, invocation: string)

  predicate Authorized(actor: Actor, user: UserId) {
    match actor
    case AuthenticatedUser(u) => u == user
    case CutoverOperator(installation, invocation) => Trim(installation) != "" && Trim(invocation) != ""
  }

  predicate IsPending(d: Desk, id: CardId) {
    id in d.cards && d.cards[id].status == Pending
  }

  function Dismiss(d: Desk, id: CardId): Desk {
    if !IsPending(d, id) then d
    else match d.cards[id].Key()
      case None => d.(cards := Cancel(d.cards, {id}))
      case Some(key) =>
        d.(cards := Cancel(d.cards, PendingWith(d.cards, key)), standing := d.standing[key := true])
  }

  function RevokeWork(standing: map<Key, bool>, user: UserId, work: WorkId): map<Key, bool> {
    map k | k in standing :: standing[k] && !k.RevokedBy(user, work)
  }

  // What `commit_review_continuation` does to the desk once its checks passed.
  function Resolve(d: Desk, id: CardId): Desk {
    if !IsPending(d, id) then d
    else
      var row := d.cards[id];
      d.(cards := d.cards[id := row.(status := Resolved)],
         standing := if row.card.PendingRoute? && row.work.Some? then RevokeWork(d.standing, row.user, row.work.value)
                     else d.standing)
  }

  // Deleting a work takes its cards with it; the ledger stays.
  function DropWork(d: Desk, user: UserId, work: WorkId): Desk {
    d.(cards := map c | c in d.cards && !(d.cards[c].user == user && d.cards[c].work == Some(work)) :: d.cards[c],
       works := d.works - {(user, work)})
  }

  // ------------------------------------------------------------------
  // The desk
  // ------------------------------------------------------------------

  datatype Error = NotFound | UnauthorizedScope | Rejected

  class ReviewDesk {
    var cards: map<CardId, Row>
    var nextCard: CardId
    var standing: map<Key, bool>
    var works: set<(UserId, WorkId)>

    function Current(): Desk
      reads this
    {
      Desk(cards, nextCard, standing, works)
    }

    // `mint_reuse_or_suppress_review_card_in_tx`.
    method MintReuseOrSuppress(p: Proposal) returns (outcome: Outcome)
      requires Valid(Current())
      modifies `cards, `nextCard
      ensures outcome == MintOutcome(old(Current()), p)
      ensures Current() == Mint(old(Current()), p) && Valid(Current())
    {
      var suppressed := Decision(Current(), p);
      if suppressed {
        return SuppressedByDismissal;
      }
      var reused := None;
      if p.Key().Some? {
        reused := ReusePending(p.Key().value);
      }
      if reused.Some? {
        outcome := Reused(reused.value);
      } else {
        outcome := InsertCard(p);
      }
    }

    // Keeps the oldest equivalent card and cancels the rest.
    method ReusePending(key: Key) returns (survivor: Option<CardId>)
      modifies `cards
      ensures if PendingWith(old(cards), key) == {} then survivor == None && cards == old(cards)
              else survivor == Some(Matches(old(cards), key)[0])
                   && cards == Cancel(old(cards), PendingWith(old(cards), key) - {survivor.value})
    {
      var matches := EquivalentPending(key, {});
      assert PendingWith(cards, key) - {} == PendingWith(cards, key);
      if matches == [] {
        return None;
      }
      CancelRest(cards, key, matches);
      CancelAll(matches[1..]);
      survivor := Some(matches[0]);
    }

    method InsertCard(p: Proposal) returns (outcome: Outcome)
      requires Valid(Current())
      modifies `cards, `nextCard
      ensures Valid(Current()) && standing == old(standing)
      ensures outcome == if CanInsert(old(Current()), p) then Minted(old(nextCard)) else Refused
      ensures nextCard == old(nextCard) + (if outcome.Minted? then 1 else 0)
      ensures cards == if outcome.Minted?
        then old(cards)[old(nextCard) := Row(p.user, StoredWork(p.card, p.work), p.generation, Pending, p.card)]
        else old(cards)
    {
      if !CanInsert(Current(), p) {
        return Refused;
      }
      outcome := Minted(nextCard);
      cards := cards[nextCard := Row(p.user, StoredWork(p.card, p.work), p.generation, Pending, p.card)];
      nextCard := nextCard + 1;
    }

    // SELECT ... ORDER BY id, then the key comparison row by row.
    method EquivalentPending(key: Key, except: set<CardId>) returns (ids: seq<CardId>)
      ensures ids == InOrder(PendingWith(cards, key) - except, ById)
    {
      ids := InOrder(PendingWith(cards, key) - except, ById);
    }

    method CancelAll(ids: seq<CardId>)
      modifies `cards
      ensures cards == Cancel(old(cards), Elements(ids))
    {
      ghost var before := cards;
      assert Elements(ids[..0]) == {};
      for n := 0 to |ids|
        invariant cards == Cancel(before, Elements(ids[..n]))
      {
        assert Elements(ids[..n + 1]) == Elements(ids[..n]) + {ids[n]} by {
          assert ids[..n + 1] == ids[..n] + [ids[n]];
        }
        if ids[n] in cards && cards[ids[n]].status == Pending {
          cards := cards[ids[n] := cards[ids[n]].(status := Cancelled)];
        }
      }
      assert ids[..|ids|] == ids;
    }

    // `dismiss_pending_review`.
    method DismissPendingReview(actor: Actor, id: CardId) returns (r: Result<(), Error>)
      requires Valid(Current())
      modifies `cards, `standing
      ensures r == if !IsPending(old(Current()), id) then Err(NotFound)
                   else if !Authorized(actor, old(cards)[id].user) then Err(UnauthorizedScope) else Ok(())
      ensures Current() == (if r.Ok? then Dismiss(old(Current()), id) else old(Current())) && Valid(Current())
    {
      if !IsPending(Current(), id) {
        return Err(NotFound);
      }
      var row := cards[id];
      if !Authorized(actor, row.user) {
        return Err(UnauthorizedScope);
      }
      var cancelled := [id];
      var key := row.Key();
      if key.Some? {
        var others := EquivalentPending(key.value, {id});
        cancelled := cancelled + others;
        assert forall c :: c in cancelled <==> c in PendingWith(cards, key.value);
        assert Elements(cancelled) == PendingWith(cards, key.value);
      } else {
        assert Elements(cancelled) == {id};
      }
      CancelAll(cancelled);
      if key.Some? {
        standing := standing[key.value := true];
      }
      r := Ok(());
    }

    // `commit_review_continuation`; `accepted` stands for the checks of kind,
    // generation, offered answer, existing work and owner before any write.
    method CommitReviewContinuation(actor: Actor, id: CardId, accepted: bool) returns (r: Result<(), Error>)
      requires Valid(Current())
      modifies `cards, `standing
      ensures r == if !IsPending(old(Current()), id) then Err(NotFound)
                   else if !Authorized(actor, old(cards)[id].user) then Err(UnauthorizedScope)
                   else if !accepted then Err(Rejected) else Ok(())
      ensures Current() == (if r.Ok? then Resolve(old(Current()), id) else old(Current())) && Valid(Current())
    {
      if !IsPending(Current(), id) {
        return Err(NotFound);
      }
      var row := cards[id];
      if !Authorized(actor, row.user) {
        return Err(UnauthorizedScope);
      }
      if !accepted {
        return Err(Rejected);
      }
      cards := cards[id := row.(status := Resolved)];
      if row.card.PendingRoute? && row.work.Some? {
        RevokeDismissals(row.user, row.work.value);
      }
      r := Ok(());
    }

    // `revoke_identity_review_dismissals`.
    method RevokeDismissals(user: UserId, work: WorkId)
      modifies `standing
      ensures standing == RevokeWork(old(standing), user, work)
    {
      standing := map k | k in standing :: standing[k] && !k.RevokedBy(user, work);
    }
  }

  lemma TailElements(s: seq<CardId>)
    requires s != [] && forall i, j :: 0 <= i < j < |s| ==> s[i] != s[j]
    ensures Elements(s[1..]) == Elements(s) - {s[0]}
  {
    assert s == [s[0]] + s[1..];
    assert forall k :: 0 <= k < |s[1..]| ==> s[1..][k] == s[k + 1];
  }

  lemma CancelRest(cards: map<CardId, Row>, key: Key, matches: seq<CardId>)
    requires matches == InOrder(PendingWith(cards, key) - {}, ById) && matches != []
    ensures Matches(cards, key) == matches && PendingWith(cards, key) != {}
    ensures Elements(matches[1..]) == PendingWith(cards, key) - {matches[0]}
  {
    assert PendingWith(cards, key) - {} == PendingWith(cards, key);
    TailElements(matches);
    assert matches[0] in matches;
    assert Elements(matches) == PendingWith(cards, key);
  }

  // ------------------------------------------------------------------
  // Runs
  // ------------------------------------------------------------------

  datatype Event =
    | MintEvent(proposal: Proposal)
    | DismissEvent(id: CardId)
    | ResolveEvent(id: CardId)
    | RevokeEvent(user: UserId, work: WorkId)
    | WorkAdded(user: UserId, work: WorkId)
    | WorkDeleted(user: UserId, work: WorkId)

  function Step(d: Desk, e: Event): Desk {
    match e
    case MintEvent(p) => Mint(d, p)
    case DismissEvent(id) => Dismiss(d, id)
    case ResolveEvent(id) => Resolve(d, id)
    case RevokeEvent(user, work) => d.(standing := RevokeWork(d.standing, user, work))
    case WorkAdded(user, work) => d.(works := d.works + {(user, work)})
    case WorkDeleted(user, work) => DropWork(d, user, work)
  }

  ghost predicate IsRun(ds: seq<Desk>, es: seq<Event>) {
    && |ds| == |es| + 1 && Valid(ds[0]) && OnePerKey(ds[0])
    && forall i :: 0 <= i < |es| ==> ds[i + 1] == Step(ds[i], es[i])
  }

  // Every mint of a run decides afresh, or as a fresh read would.
  ghost predicate FreshDecisions(ds: seq<Desk>, es: seq<Event>) {
    |ds| == |es| + 1 &&
    forall i :: 0 <= i < |es| && es[i].MintEvent? ==>
      Decision(ds[i], es[i].proposal) == Suppressed(ds[i], es[i].proposal)
  }

  lemma StepKeepsOne(d: Desk, e: Event)
    requires Valid(d) && OnePerKey(d)
    ensures Valid(Step(d, e)) && OnePerKey(Step(d, e))
  {
    match e {
      case MintEvent(p) =>
        KeyFromStorage(p.user, p.card, p.work);
        if MintOutcome(d, p).Minted? && p.Key().Some? {
          forall c | c in d.cards && d.cards[c].status == Pending ensures d.cards[c].Key() != p.Key() {
            assert c !in PendingWith(d.cards, p.Key().value);
          }
        }
      case _ =>
    }
  }

  // A user never has two pending cards of one key.
  lemma {:induction false} OnePendingPerKey(ds: seq<Desk>, es: seq<Event>, i: nat)
    requires IsRun(ds, es) && i <= |es|
    ensures Valid(ds[i]) && OnePerKey(ds[i])
  {
    if i > 0 {
      OnePendingPerKey(ds, es, i - 1);
      StepKeepsOne(ds[i - 1], es[i - 1]);
      assert ds[i] == Step(ds[i - 1], es[i - 1]);
    }
  }

  // A dismissal takes every pending card of the key and leaves it standing.
  lemma DismissalCancelsAll(d: Desk, id: CardId)
    requires IsPending(d, id) && d.cards[id].Key().Some?
    ensures var key, after := d.cards[id].Key().value, Dismiss(d, id);
            && PendingWith(after.cards, key) == {} && Standing(after, key)
            && forall k :: k != key ==> PendingWith(after.cards, k) == PendingWith(d.cards, k)
                                        && (Standing(after, k) <==> Standing(d, k))
  {
    var key, after := d.cards[id].Key().value, Dismiss(d, id);
    forall k | k != key ensures PendingWith(after.cards, k) == PendingWith(d.cards, k) {
      forall c | c in PendingWith(d.cards, k) ensures c in PendingWith(after.cards, k) {
        assert d.cards[c].Key() != Some(key);
      }
    }
  }

  // The event withdraws the dismissal of the key.
  predicate Revokes(d: Desk, e: Event, key: Key) {
    match e
    case RevokeEvent(user, work) => key.RevokedBy(user, work)
    case ResolveEvent(id) =>
      IsPending(d, id) && d.cards[id].card.PendingRoute? && d.cards[id].work.Some?
      && key.RevokedBy(d.cards[id].user, d.cards[id].work.value)
    case _ => false
  }

  // A mint that a dismissal of the key does not stop.
  predicate PassesThrough(e: Event, key: Key) {
    e.MintEvent? && e.proposal.Key() == Some(key) && e.proposal.Bypasses()
  }

  lemma StandingStep(d: Desk, e: Event, key: Key)
    requires Valid(d) && Standing(d, key)
    ensures Standing(Step(d, e), key) <==> !Revokes(d, e, key)
  {}

  lemma SilentStep(d: Desk, e: Event, key: Key)
    requires Valid(d) && Standing(d, key) && PendingWith(d.cards, key) == {} && !PassesThrough(e, key)
    requires e.MintEvent? ==> Decision(d, e.proposal) == Suppressed(d, e.proposal)
    ensures PendingWith(Step(d, e).cards, key) == {}
    ensures e.MintEvent? && e.proposal.Key() == Some(key) ==>
              Step(d, e) == d && MintOutcome(d, e.proposal) == SuppressedByDismissal
  {
    match e {
      case MintEvent(p) => if p.Key() != Some(key) { MintOtherKeys(d, p, key); }
      case _ =>
    }
  }

  // From a dismissal on, until an event that revokes it: the dismissal stands,
  // no card of the key is pending, and every machine mint of the key is a
  // no-op. Only an explicit choice or an inline origin would get through.
  lemma {:induction false} DismissalSilences(ds: seq<Desk>, es: seq<Event>, i: nat, j: nat, key: Key)
    requires IsRun(ds, es) && FreshDecisions(ds, es) && i <= j <= |es|
    requires Standing(ds[i], key) && PendingWith(ds[i].cards, key) == {}
    requires forall k :: i <= k < j ==> !Revokes(ds[k], es[k], key) && !PassesThrough(es[k], key)
    ensures Standing(ds[j], key) && PendingWith(ds[j].cards, key) == {}
    ensures j < |es| && es[j].MintEvent? && es[j].proposal.Key() == Some(key) && !es[j].proposal.Bypasses() ==>
              ds[j + 1] == ds[j] && MintOutcome(ds[j], es[j].proposal) == SuppressedByDismissal
  {
    OnePendingPerKey(ds, es, j);
    if i < j {
      DismissalSilences(ds, es, i, j - 1, key);
      OnePendingPerKey(ds, es, j - 1);
      StandingStep(ds[j - 1], es[j - 1], key);
      SilentStep(ds[j - 1], es[j - 1], key);
      assert ds[j] == Step(ds[j - 1], es[j - 1]);
    }
    if j < |es| {
      assert ds[j + 1] == Step(ds[j], es[j]);
    }
  }

  // Nothing revokes the dismissal of an edition's evidence.
  lemma {:induction false} EditionDismissalIsFinal(ds: seq<Desk>, es: seq<Event>, i: nat, j: nat, key: Key)
    requires IsRun(ds, es) && i <= j <= |es| && key.EditionKey? && Standing(ds[i], key)
    ensures Standing(ds[j], key)
  {
    if i < j {
      EditionDismissalIsFinal(ds, es, i, j - 1, key);
      OnePendingPerKey(ds, es, j - 1);
      StandingStep(ds[j - 1], es[j - 1], key);
      assert ds[j] == Step(ds[j - 1], es[j - 1]);
    }
  }

  // Once it no longer stands, the next mint of the key is asked again.
  lemma MintedAfterRevocation(d: Desk, p: Proposal)
    requires Valid(d) && p.Key().Some? && !Standing(d, p.Key().value)
    requires Decision(d, p) == Suppressed(d, p) && CanInsert(d, p)
    ensures exists id :: PendingWith(Mint(d, p).cards, p.Key().value) == {id}
  {
    MintLeavesOne(d, p);
  }
}
