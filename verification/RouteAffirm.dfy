// The user's affirmation of a proposed route: the one answer of a review card
// that changes routes (crates/livrarr-db/src/identity_layer.rs:1930-2210). The
// route is inserted as the user's own, the work's status and generation follow,
// and the card is resolved, all in one transaction.
module RouteAffirm {
  import opened Basics
  import opened RouteGraph
  import opened Settlement
  import ReviewCards

  datatype Refusal = CardNotFound | Unauthorized | KindMismatch | ProposalInvalidated | OwnerNotFound

  function HolderOfCard(routes: Routes, row: ReviewCards.Row): Option<WorkId>
    requires row.card.PendingRoute?
  {
    HolderOf(routes, row.user, row.card.provider, row.card.kind, Trim(row.card.value))
  }

  predicate Fits(editions: map<EditionId, (UserId, WorkId)>, user: UserId, work: WorkId, owner: Owner) {
    owner.OfWork? || (owner.edition in editions && editions[owner.edition] == (user, work))
  }

  // The route is the work's already: the answer only closes the card.
  predicate IsNoop(routes: Routes, row: ReviewCards.Row)
    requires row.card.PendingRoute?
  {
    row.work.Some? && HolderOfCard(routes, row) == row.work
  }

  function Reply(t: Tables, d: ReviewCards.Desk, actor: ReviewCards.Actor, id: ReviewCards.CardId, owner: Owner):
    Result<(), Refusal>
  {
    if !ReviewCards.IsPending(d, id) then Err(CardNotFound)
    else
      var row := d.cards[id];
      if !ReviewCards.Authorized(actor, row.user) then Err(Unauthorized)
      else if !row.card.PendingRoute? then Err(KindMismatch)
      else if row.work.None? || !(row.work.value in t.works && t.works[row.work.value].user == row.user)
      then Err(ProposalInvalidated)
      else
        var holder := HolderOfCard(t.routes.routes, row);
        if holder.Some? && holder != row.work then Err(ProposalInvalidated)
        else if holder.None? && !Fits(t.editions, row.user, row.work.value, owner) then Err(OwnerNotFound)
        else Ok(())
  }

  function RouteOf(row: ReviewCards.Row, work: WorkId, owner: Owner): Route
    requires row.card.PendingRoute?
  {
    Route(row.user, if owner.OfWork? then OfWork(work) else owner, work, row.card.provider, row.card.kind,
          row.card.value, true, UserChoice, true)
  }

  // The tables after an answer that is no no-op.
  ghost function Affirmed(t: Tables, row: ReviewCards.Row, work: WorkId, owner: Owner): Tables
    requires row.card.PendingRoute? && work in t.works
  {
    var routes := Inserted(t.routes, RouteOf(row, work, owner));
    t.(routes := routes,
       works := t.works[work := t.works[work].(status := UserConfirmed, generation := t.works[work].generation + 1)],
       retries := Invalidated(t.retries, t.routes.routes, routes.routes, row.user, work))
  }

  method AffirmPendingRoute(store: IdentityStore, actor: ReviewCards.Actor, id: ReviewCards.CardId, owner: Owner)
    returns (r: Result<(), Refusal>)
    requires store.Sound() && ReviewCards.Valid(store.desk.Current())
    modifies store`works, store`routes, store`nextRoute, store`retries, store.desk`cards, store.desk`standing
    ensures store.Sound() && ReviewCards.Valid(store.desk.Current())
    ensures r == Reply(old(store.Stored()), old(store.desk.Current()), actor, id, owner)
    ensures r.Err? ==> store.Stored() == old(store.Stored()) && store.desk.Current() == old(store.desk.Current())
    ensures r.Ok? ==>
              var row := old(store.desk.cards)[id];
              && store.desk.Current() == ReviewCards.Resolve(old(store.desk.Current()), id)
              && store.Stored() == if IsNoop(old(store.routes), row) then old(store.Stored())
                                   else Affirmed(old(store.Stored()), row, row.work.value, owner)
  {
    r := Reply(store.Stored(), store.desk.Current(), actor, id, owner);
    if r.Err? {
      return;
    }
    var row := store.desk.cards[id];
    if !IsNoop(store.routes, row) {
      WriteRoute(store, row, row.work.value, owner);
    }
    var resolved := store.desk.CommitReviewContinuation(actor, id, true);
  }

  // The insert, the status, the generation and the retry rows.
  method WriteRoute(store: IdentityStore, row: ReviewCards.Row, work: WorkId, owner: Owner)
    requires store.Sound() && row.card.PendingRoute? && work in store.works
    modifies store`works, store`routes, store`nextRoute, store`retries
    ensures store.Sound() && store.Stored() == Affirmed(old(store.Stored()), row, work, owner)
  {
    ghost var before, earlier := store.Stored(), store.routes;
    var graph := ReadGraph(store.routes, row.user, work);
    PutRoute(store, RouteOf(row, work, owner));
    Confirm(store, work);
    var changed;
    store.retries, changed := InvalidateRetryState(store.routes, store.retries, row.user, work, graph, earlier);
    AffirmedIs(before, store.Stored(), row, work, owner);
  }

  lemma AffirmedIs(t: Tables, t': Tables, row: ReviewCards.Row, work: WorkId, owner: Owner)
    requires row.card.PendingRoute? && work in t.works
    requires t'.routes == Inserted(t.routes, RouteOf(row, work, owner))
    requires t'.works
          == t.works[work := t.works[work].(status := UserConfirmed, generation := t.works[work].generation + 1)]
    requires t'.retries == Invalidated(t.retries, t.routes.routes, t'.routes.routes, row.user, work)
    requires t' == t.(routes := t'.routes, works := t'.works, retries := t'.retries)
    ensures t' == Affirmed(t, row, work, owner)
  {}

  method PutRoute(store: IdentityStore, route: Route)
    requires store.Sound()
    modifies store`routes, store`nextRoute
    ensures store.Sound()
    ensures Table(store.routes, store.nextRoute) == Inserted(Table(old(store.routes), old(store.nextRoute)), route)
  {
    InsertKeepsRows(Table(store.routes, store.nextRoute), route, 0);
    var table := Inserted(Table(store.routes, store.nextRoute), route);
    store.routes, store.nextRoute := table.routes, table.nextRoute;
  }

  method Confirm(store: IdentityStore, work: WorkId)
    requires store.Sound() && work in store.works
    modifies store`works
    ensures store.Sound()
    ensures store.works == old(store.works)[work := old(store.works)[work].(
              status := UserConfirmed, generation := old(store.works)[work].generation + 1)]
  {
    var w := store.works[work];
    store.works := store.works[work := w.(status := UserConfirmed, generation := w.generation + 1)];
    SoundWithout(old(store.works), store.works, store.nextWork, store.staffs, store.authors, store.desk.works);
  }

  // An affirmed route is on record as the user's own, no row is lost or
  // weakened and no other work's is touched; the status written directly is the
  // one the routes project, and the generation rises as for an accepted claim.
  lemma AffirmSettles(t: Tables, row: ReviewCards.Row, work: WorkId, owner: Owner)
    requires row.card.PendingRoute? && work in t.works && ValidTable(t.routes)
    ensures var after := Affirmed(t, row, work, owner);
            && RowsKept(t.routes.routes, after.routes.routes)
            && (exists k :: k in after.routes.routes && IsAffirmed(after.routes.routes[k], row, work))
            && (forall i :: i in t.routes.routes && t.routes.routes[i].resolved != work ==>
                  after.routes.routes[i] == t.routes.routes[i])
            && after.works[work].status == Projection(after.routes.routes, row.user, work)
            && GenerationsOf(after.works)
               == Next(GenerationsOf(t.works), Claim(work, t.works[work].generation))
            && forall r :: r in after.retries <==>
                 r in t.retries
                 && !(r.0 == work && Changed(t.routes.routes, after.routes.routes, row.user, work))
  {
    GenerationsWith(t.works, work, Affirmed(t, row, work, owner).works[work]);
    RowsAffirmed(t.routes, row, work, owner);
  }

  lemma RowsAffirmed(t: Table, row: ReviewCards.Row, work: WorkId, owner: Owner)
    requires row.card.PendingRoute? && ValidTable(t)
    ensures var after := Inserted(t, RouteOf(row, work, owner)).routes;
            && RowsKept(t.routes, after)
            && (exists k :: k in after && IsAffirmed(after[k], row, work))
            && forall i :: i in t.routes && t.routes[i].resolved != work ==> after[i] == t.routes[i]
  {
    var r := RouteOf(row, work, owner);
    var after, ids := Inserted(t, r).routes, ExistingIds(t.routes, r);
    ExistingFacts(t.routes, r);
    var k := if ids == [] then t.nextRoute else ids[0];
    assert IsAffirmed(after[k], row, work);
    forall i | i in t.routes ensures i in after && RowKept(t.routes[i], after[i]) {
      InsertKeepsRows(t, r, i);
    }
    OthersUntouched(t, r);
  }

  predicate IsAffirmed(route: Route, row: ReviewCards.Row, work: WorkId)
    requires row.card.PendingRoute?
  {
    && route.resolved == work && route.user == row.user && route.provider == row.card.provider
    && route.kind == row.card.kind && route.value == row.card.value && route.active && route.confirmed
  }
}
