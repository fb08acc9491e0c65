// Identity settlement (crates/livrarr-db/src/identity_layer.rs:542-1007), the
// route transfer and the projection recompute beside it (2612-2830): optimistic
// generations, one suppression decision per card, retry invalidation.
module Settlement {
  import opened Basics
  import opened RouteGraph
  import ReviewCards
  import Contributors
  import Sorting

  type AuthorId = int

  datatype Title = Title(main: string, subtitle: string, volume: string)

  datatype Status = UserConfirmed | Connected | NotConnected

  datatype Work = Work(
    user: UserId, title: Title, primary: AuthorId, distinction: string, status: Status, generation: int)

  // The columns of idx_works_identity_v2.
  datatype IdentityKey = IdentityKey(user: UserId, title: Title, primary: AuthorId, distinction: string)

  function KeyOf(w: Work): IdentityKey {
    IdentityKey(w.user, w.title, w.primary, w.distinction)
  }

  // What a card's foreign key can refer to.
  ghost function WorkRefs(works: map<WorkId, Work>): set<(UserId, WorkId)> {
    set w | w in works :: (works[w].user, w)
  }

  lemma RefsOfClaim(works: map<WorkId, Work>, nextWork: WorkId, c: Command, work: WorkId)
    requires ClaimReply(works, nextWork, c) == Ok(work) && nextWork !in works
    ensures WorkRefs(works[work := ClaimedWork(works, c)]) == WorkRefs(works) + {(c.user, work)}
  {
    var claimed := works[work := ClaimedWork(works, c)];
    forall r | r in WorkRefs(works) ensures r in WorkRefs(claimed) {
      assert claimed[r.1].user == r.0;
    }
    assert claimed[work].user == c.user;
  }

  function AuthorsOf(authors: map<AuthorId, UserId>, user: UserId): set<AuthorId> {
    set a | a in authors && authors[a] == user
  }

  // Every work has its contributors, all of them authors of its user.
  ghost predicate Staffed(
      works: map<WorkId, Work>, staffs: map<WorkId, Contributors.Staff>, authors: map<AuthorId, UserId>)
  {
    staffs.Keys == works.Keys
    && forall w :: w in works ==> Contributors.ValidStaff(staffs[w], AuthorsOf(authors, works[w].user))
  }

  ghost predicate WorksSound(
      works: map<WorkId, Work>, nextWork: WorkId, staffs: map<WorkId, Contributors.Staff>,
      authors: map<AuthorId, UserId>, refs: set<(UserId, WorkId)>)
  {
    && UniqueIdentities(works) && (forall w :: w in works ==> w < nextWork)
    && refs == WorkRefs(works) && Staffed(works, staffs, authors)
  }

  // Status and generation do not matter to it.
  lemma SoundWithout(
      works: map<WorkId, Work>, works': map<WorkId, Work>, nextWork: WorkId,
      staffs: map<WorkId, Contributors.Staff>, authors: map<AuthorId, UserId>, refs: set<(UserId, WorkId)>)
    requires WorksSound(works, nextWork, staffs, authors, refs) && works'.Keys == works.Keys
    requires forall w :: w in works ==> KeyOf(works'[w]) == KeyOf(works[w])
    ensures WorksSound(works', nextWork, staffs, authors, refs)
  {
    SameRefs(works, works');
    forall w | w in works' ensures works'[w].user == works[w].user {
      assert KeyOf(works'[w]).user == works'[w].user;
    }
  }

  ghost predicate Numbered(editions: map<EditionId, (UserId, WorkId)>, nextEdition: EditionId) {
    forall e :: e in editions ==> e < nextEdition
  }

  // A new work starts without contributors.
  function Hired(staffs: map<WorkId, Contributors.Staff>, work: WorkId): map<WorkId, Contributors.Staff> {
    if work in staffs then staffs else staffs[work := Contributors.NOBODY]
  }

  lemma ClaimKeeps(
      works: map<WorkId, Work>, nextWork: WorkId, staffs: map<WorkId, Contributors.Staff>,
      authors: map<AuthorId, UserId>, refs: set<(UserId, WorkId)>, c: Command, work: WorkId)
    requires WorksSound(works, nextWork, staffs, authors, refs) && ClaimReply(works, nextWork, c) == Ok(work)
    ensures WorksSound(works[work := ClaimedWork(works, c)], nextWork + (if c.existing.None? then 1 else 0),
                       Hired(staffs, work), authors, refs + {(c.user, work)})
  {
    RefsOfClaim(works, nextWork, c, work);
    assert work !in works ==> Contributors.ValidStaff(Contributors.NOBODY, AuthorsOf(authors, c.user));
  }

  // An edit of the title's key replaces the primary; every other settlement
  // merges the contributors it brings.
  function StaffAfter(staff: Contributors.Staff, c: Command): Contributors.Staff
    requires Contributors.DistinctOrdinals(staff.rows)
  {
    if c.origin == ReviewCards.WorkUpdateRekey then Contributors.WithPrimary(staff, c.Primary())
    else Contributors.MergedStaff(staff, c.contributors)
  }

  lemma SameRefs(a: map<WorkId, Work>, b: map<WorkId, Work>)
    requires a.Keys == b.Keys && forall w :: w in a ==> b[w].user == a[w].user
    ensures WorkRefs(a) == WorkRefs(b)
  {}

  ghost predicate UniqueIdentities(works: map<WorkId, Work>) {
    forall a, b :: a in works && b in works && a != b ==> KeyOf(works[a]) != KeyOf(works[b])
  }

  datatype Error =
    | MergingUnavailable | AtomicRollback | StandingDismissal | RouteOwnershipCollision | NotFound
    | StaleGeneration | DuplicateIdentity | KeyCollision | StillAmbiguous | CardRefused | ContributorRefused

  datatype RouteInput = RouteInput(
    owner: Owner, provider: string, kind: string, value: string, active: bool, provenance: Provenance, confirmed: bool)

  // `SettlementCommit`.
  datatype Command = Command(
    user: UserId, existing: Option<WorkId>, expected: int, title: Title, distinction: Option<string>,
    absorbed: seq<WorkId>, contributors: seq<Contributors.Request>, routes: seq<RouteInput>,
    cards: seq<ReviewCards.Card>, origin: ReviewCards.Origin, explicitChoice: bool)
  {
    // The contributor of ordinal 0, where there is exactly one.
    function Primary(): AuthorId {
      var leads := Leads(contributors);
      if leads == [] then 0 else leads[0].author
    }

    function ProposalOf(card: ReviewCards.Card, work: Option<WorkId>, generation: int, preflight: Option<bool>):
      ReviewCards.Proposal
    {
      ReviewCards.Proposal(user, work, generation, card, origin, explicitChoice, preflight)
    }
  }

  function Leads(contributors: seq<Contributors.Request>): seq<Contributors.Request> {
    if contributors == [] then []
    else
      var front, last := Leads(contributors[..|contributors| - 1]), contributors[|contributors| - 1];
      if last.ordinal == 0 then front + [last] else front
  }

  // `WORK_MERGING_AVAILABLE`.
  const MERGING := false

  predicate RequiresEdition(kind: string) {
    kind in {"Isbn13Edition", "AsinEdition", "GoodreadsBookEdition"}
  }

  // ------------------------------------------------------------------
  // Before the first write
  // ------------------------------------------------------------------

  predicate CardSuppressed(d: ReviewCards.Desk, c: Command, card: ReviewCards.Card) {
    ReviewCards.Suppressed(d, c.ProposalOf(card, c.existing, c.expected, None))
  }

  function Dispositions(d: ReviewCards.Desk, c: Command, cards: seq<ReviewCards.Card>): (r: seq<bool>)
    ensures |r| == |cards| && forall k :: 0 <= k < |cards| ==> r[k] == CardSuppressed(d, c, cards[k])
  {
    if cards == [] then []
    else Dispositions(d, c, cards[..|cards| - 1]) + [CardSuppressed(d, c, cards[|cards| - 1])]
  }

  predicate AlreadyActive(graph: seq<GraphRow>, r: RouteInput) {
    exists k :: 0 <= k < |graph| && graph[k].provider == r.provider && graph[k].kind == r.kind
                && Trim(graph[k].value) == Trim(r.value)
  }

  // The card a machine's new route would have been.
  function RouteCard(work: WorkId, r: RouteInput): ReviewCards.Card {
    ReviewCards.PendingRoute(work, r.provider, r.kind, r.value)
  }

  predicate RouteVetoed(d: ReviewCards.Desk, c: Command, graph: seq<GraphRow>, r: RouteInput) {
    c.existing.Some? && !AlreadyActive(graph, r)
    && ReviewCards.Suppressed(d, c.ProposalOf(RouteCard(c.existing.value, r), c.existing, c.expected, None))
  }

  predicate IsMachine(c: Command) {
    !c.explicitChoice && !ReviewCards.IsInline(c.origin)
  }

  // A standing dismissal defers the whole settlement: every card it proposes
  // is dismissed, or some new machine route is.
  predicate Deferred(d: ReviewCards.Desk, c: Command, graph: seq<GraphRow>) {
    (c.cards != [] && forall k :: 0 <= k < |c.cards| ==> CardSuppressed(d, c, c.cards[k]))
    || (IsMachine(c) && exists k :: 0 <= k < |c.routes| && RouteVetoed(d, c, graph, c.routes[k]))
  }

  // Another work of the user owns the route of a proposed card.
  predicate OwnedElsewhere(routes: Routes, c: Command, card: ReviewCards.Card) {
    card.PendingRoute?
    && var holder := HolderOf(routes, c.user, card.provider, card.kind, card.value);
       holder.Some? && holder != c.existing
  }

  function GraphOf(routes: Routes, c: Command): seq<GraphRow> {
    if c.existing.Some? then ReadGraph(routes, c.user, c.existing.value) else []
  }

  function PreflightReply(d: ReviewCards.Desk, routes: Routes, authors: map<AuthorId, UserId>, c: Command):
    Result<seq<bool>, Error>
  {
    if c.absorbed != [] && !MERGING then Err(MergingUnavailable)
    else if |Leads(c.contributors)| != 1 then Err(AtomicRollback)
    else if Deferred(d, c, GraphOf(routes, c)) then Err(StandingDismissal)
    else if exists k :: 0 <= k < |c.cards| && OwnedElsewhere(routes, c, c.cards[k]) then Err(RouteOwnershipCollision)
    else if !(c.Primary() in authors && authors[c.Primary()] == c.user) then Err(NotFound)
    else Ok(Dispositions(d, c, c.cards))
  }

  // ------------------------------------------------------------------
  // The writes, as functions of the tables
  // ------------------------------------------------------------------

  // The generation claim: the one UPDATE guarded by the captured generation.
  function ClaimReply(works: map<WorkId, Work>, nextWork: WorkId, c: Command): Result<WorkId, Error> {
    match c.existing
    case Some(w) =>
      if w !in works || works[w].user != c.user then Err(NotFound)
      else if works[w].generation != c.expected then Err(StaleGeneration)
      else if c.origin == ReviewCards.WorkUpdateRekey && HasTwin(works, w, c) then Err(DuplicateIdentity)
      else if exists o :: o in works && o != w && KeyOf(works[o]) == KeyOf(ClaimedWork(works, c)) then Err(KeyCollision)
      else Ok(w)
    case None =>
      if c.expected != 0 then Err(StaleGeneration)
      else if exists o :: o in works && KeyOf(works[o]) == KeyOf(ClaimedWork(works, c)) then Err(KeyCollision)
      else Ok(nextWork)
  }

  // Another work of the user with the title and author of the edit.
  predicate HasTwin(works: map<WorkId, Work>, w: WorkId, c: Command) {
    exists o :: o in works && o != w && works[o].user == c.user && works[o].title == c.title
        && works[o].primary == c.Primary()
  }

  function ClaimedWork(works: map<WorkId, Work>, c: Command): Work {
    var kept := if c.existing.Some? && c.existing.value in works then works[c.existing.value].distinction else "common";
    Work(c.user, c.title, c.Primary(), if c.distinction.Some? then c.distinction.value else kept, NotConnected,
         c.expected + 1)
  }

  function Projection(routes: Routes, user: UserId, work: WorkId): Status {
    if exists i :: i in routes && routes[i].user == user && routes[i].resolved == work && routes[i].active
                   && routes[i].confirmed then UserConfirmed
    else if exists i :: i in routes && routes[i].user == user && routes[i].resolved == work && routes[i].active
    then Connected
    else NotConnected
  }

  // `cancel_satisfied_pending_route_cards`.
  predicate Satisfied(row: ReviewCards.Row, user: UserId, work: WorkId, routes: seq<RouteInput>) {
    row.user == user && row.work == Some(work) && row.card.PendingRoute? && row.status == ReviewCards.Pending
    && exists k :: 0 <= k < |routes| && routes[k].provider == row.card.provider && routes[k].kind == row.card.kind
                   && Trim(routes[k].value) == Trim(row.card.value)
  }

  // ------------------------------------------------------------------
  // Generations as an optimistic lock
  // ------------------------------------------------------------------

  type Generations = map<WorkId, int>

  function GenerationsOf(works: map<WorkId, Work>): Generations {
    map w | w in works :: works[w].generation
  }

  // A guarded mutation claims the generation it was built on and raises it by
  // one, or is refused. An unguarded one (bump_identity_generation, clearing an
  // identity, a fold winner, the legacy refresh) raises it whatever it is.
  datatype Mutation =
    | Claim(work: WorkId, expected: int)
    | Bump(work: WorkId, rise: nat)
    | Create(work: WorkId)
    | DeleteWork(work: WorkId)

  predicate Accepts(g: Generations, m: Mutation) {
    m.Claim? && m.work in g && g[m.work] == m.expected
  }

  function Next(g: Generations, m: Mutation): Generations {
    match m
    case Claim(w, expected) => if Accepts(g, m) then g[w := expected + 1] else g
    case Bump(w, rise) => if w in g then g[w := g[w] + rise] else g
    case Create(w) => if w in g then g else g[w := 1]
    case DeleteWork(w) => g - {w}
  }

  // Works are numbered by AUTOINCREMENT: an id does not come back.
  ghost predicate IsRun(gs: seq<Generations>, ms: seq<Mutation>) {
    && |gs| == |ms| + 1
    && (forall i :: 0 <= i < |ms| ==> gs[i + 1] == Next(gs[i], ms[i]))
    && forall i :: 0 <= i < |ms| && ms[i].Create? ==> forall j :: 0 <= j <= i ==> ms[i].work !in gs[j]
  }

  // How many claims on the work were accepted between two states.
  ghost function Accepted(gs: seq<Generations>, ms: seq<Mutation>, w: WorkId, i: nat, j: nat): nat
    requires i <= j <= |ms| < |gs|
    decreases j
  {
    if i == j then 0
    else
      var front, m := Accepted(gs, ms, w, i, j - 1), ms[j - 1];
      if m.Claim? && m.work == w && Accepts(gs[j - 1], m) then front + 1 else front
  }

  // What unguarded writes added to it.
  ghost function Bumped(ms: seq<Mutation>, w: WorkId, i: nat, j: nat): nat
    requires i <= j <= |ms|
    decreases j
  {
    if i == j then 0
    else
      var front, m := Bumped(ms, w, i, j - 1), ms[j - 1];
      if m.Bump? && m.work == w then front + m.rise else front
  }

  // The generation is accounted for by the accepted claims, one each, and the
  // unguarded rises.
  lemma {:induction false} GenerationCounts(gs: seq<Generations>, ms: seq<Mutation>, w: WorkId, i: nat, j: nat)
    requires IsRun(gs, ms) && i <= j <= |ms| && w in gs[i] && w in gs[j]
    ensures gs[j][w] == gs[i][w] + Accepted(gs, ms, w, i, j) + Bumped(ms, w, i, j)
    decreases j
  {
    if i < j {
      assert gs[j] == Next(gs[j - 1], ms[j - 1]);
      assert ms[j - 1].Create? ==> ms[j - 1].work !in gs[i];
      GenerationCounts(gs, ms, w, i, j - 1);
    }
  }

  // Where no unguarded write comes between, the accepted claims form a chain of
  // consecutive generations: the next one accepted was built on the last one's.
  lemma ClaimsAreConsecutive(gs: seq<Generations>, ms: seq<Mutation>, i: nat, j: nat)
    requires IsRun(gs, ms) && i < j < |ms| && Accepts(gs[i], ms[i]) && Accepts(gs[j], ms[j])
    requires ms[i].work == ms[j].work
    ensures ms[j].expected
         == ms[i].expected + 1 + Accepted(gs, ms, ms[i].work, i + 1, j) + Bumped(ms, ms[i].work, i + 1, j)
  {
    assert gs[i + 1] == Next(gs[i], ms[i]);
    GenerationCounts(gs, ms, ms[i].work, i + 1, j);
  }

  // Of two mutations built on one captured generation at most one commits,
  // whatever is written in between.
  lemma OneCommitPerGeneration(gs: seq<Generations>, ms: seq<Mutation>, i: nat, j: nat)
    requires IsRun(gs, ms) && i < j < |ms| && ms[i].Claim? && ms[j].Claim?
    requires ms[i].work == ms[j].work && ms[i].expected == ms[j].expected
    ensures !(Accepts(gs[i], ms[i]) && Accepts(gs[j], ms[j]))
  {
    if Accepts(gs[i], ms[i]) && Accepts(gs[j], ms[j]) {
      ClaimsAreConsecutive(gs, ms, i, j);
    }
  }

  // ------------------------------------------------------------------
  // The store
  // ------------------------------------------------------------------

  class IdentityStore {
    const desk: ReviewCards.ReviewDesk
    var works: map<WorkId, Work>
    var nextWork: WorkId
    var routes: Routes
    var nextRoute: RouteId
    var editions: map<EditionId, (UserId, WorkId)>
    var nextEdition: EditionId
    var retries: Retries
    var staffs: map<WorkId, Contributors.Staff>
    var authors: map<AuthorId, UserId>

    constructor (desk: ReviewCards.ReviewDesk, authors: map<AuthorId, UserId>)
      requires desk.works == {}
      ensures this.desk == desk && this.authors == authors && Sound() && works == map[]
    {
      this.desk, this.authors := desk, authors;
      works, nextWork, routes, nextRoute := map[], 1, map[], 1;
      editions, nextEdition, retries, staffs := map[], 1, {}, map[];
    }

    function Stored(): Tables
      reads `works, `nextWork, `routes, `nextRoute, `editions, `retries, `staffs
    {
      Tables(works, nextWork, Table(routes, nextRoute), editions, retries, staffs)
    }

    ghost predicate Sound()
      reads `works, `nextWork, `routes, `nextRoute, `editions, `nextEdition, `staffs, `authors, desk`works
    {
      && WorksSound(works, nextWork, staffs, authors, desk.works)
      && ValidTable(Table(routes, nextRoute)) && Numbered(editions, nextEdition)
    }

    // The checks of a settlement. It writes nothing, and it alone answers
    // StandingDismissal.
    method Preflight(c: Command) returns (r: Result<seq<bool>, Error>)
      ensures r == PreflightReply(desk.Current(), routes, authors, c)
    {
      if c.absorbed != [] && !MERGING {
        return Err(MergingUnavailable);
      }
      if |Leads(c.contributors)| != 1 {
        return Err(AtomicRollback);
      }
      var graph := GraphOf(routes, c);
      var dispositions := Dispositions(desk.Current(), c, c.cards);
      if c.cards != [] && forall k :: 0 <= k < |dispositions| ==> dispositions[k] {
        return Err(StandingDismissal);
      }
      if IsMachine(c) {
        var vetoed := AnyVetoed(c, graph);
        if vetoed {
          return Err(StandingDismissal);
        }
      }
      if exists k :: 0 <= k < |c.cards| && OwnedElsewhere(routes, c, c.cards[k]) {
        return Err(RouteOwnershipCollision);
      }
      if !(c.Primary() in authors && authors[c.Primary()] == c.user) {
        return Err(NotFound);
      }
      r := Ok(dispositions);
    }

    // `for route in &command.routes` of the preflight.
    method AnyVetoed(c: Command, graph: seq<GraphRow>) returns (vetoed: bool)
      ensures vetoed <==> exists k :: 0 <= k < |c.routes| && RouteVetoed(desk.Current(), c, graph, c.routes[k])
    {
      for k := 0 to |c.routes|
        invariant forall j :: 0 <= j < k ==> !RouteVetoed(desk.Current(), c, graph, c.routes[j])
      {
        if RouteVetoed(desk.Current(), c, graph, c.routes[k]) {
          return true;
        }
      }
      vetoed := false;
    }

    // The generation claim, or the insert of a new work.
    method ClaimWork(c: Command) returns (r: Result<WorkId, Error>)
      requires Sound()
      modifies `works, `nextWork, `staffs, desk`works
      ensures Sound()
      ensures r == ClaimReply(old(works), old(nextWork), c)
      ensures r.Err? ==> Stored() == old(Stored()) && desk.works == old(desk.works)
      ensures r.Ok? ==>
                && Stored() == ClaimedTables(old(Stored()), c, r.value).(nextWork := nextWork)
                && nextWork == old(nextWork) + (if c.existing.None? then 1 else 0)
                && desk.works == old(desk.works) + {(c.user, r.value)}
    {
      r := ClaimReply(works, nextWork, c);
      if r.Ok? {
        ClaimKeeps(works, nextWork, staffs, authors, desk.works, c, r.value);
        works := works[r.value := ClaimedWork(works, c)];
        nextWork := nextWork + (if c.existing.None? then 1 else 0);
        staffs := Hired(staffs, r.value);
        desk.works := desk.works + {(c.user, r.value)};
      }
    }

    // `materialize_edition_route_owner` and `insert_route`.
    method SettleRoute(user: UserId, work: WorkId, input: RouteInput) returns (ok: bool)
      requires Sound()
      modifies `routes, `nextRoute, `editions, `nextEdition
      ensures Sound()
      ensures !ok ==> routes == old(routes) && nextRoute == old(nextRoute)
      ensures Grown(old(editions), editions)
      ensures ok ==> RoutedOne(Table(old(routes), old(nextRoute)), Table(routes, nextRoute), editions, user, work,
              input)
    {
      var owner := if input.owner.OfWork? then OfWork(work) else input.owner;
      if RequiresEdition(input.kind) && owner.OfWork? {
        owner := MaterializeEdition(user, work, input);
      }
      ok := owner.OfWork? || (owner.edition in editions && editions[owner.edition] == (user, work));
      if ok {
        ghost var before := Table(routes, nextRoute);
        var route := RouteFor(user, work, owner, input);
        InsertKeepsRows(before, route, 0);
        var after := Inserted(Table(routes, nextRoute), route);
        routes, nextRoute := after.routes, after.nextRoute;
        assert OwnerFits(editions, user, work, owner, input);
      }
    }

    // The edition that already carries the identifier, or a new one.
    method MaterializeEdition(user: UserId, work: WorkId, input: RouteInput) returns (owner: Owner)
      requires Sound()
      modifies `editions, `nextEdition
      ensures Sound() && owner.OfEdition?
      ensures Grown(old(editions), editions)
    {
      var held := HeldEdition(routes, user, input);
      if held.Some? {
        owner := OfEdition(held.value);
      } else {
        owner := OfEdition(nextEdition);
        editions, nextEdition := editions[nextEdition := (user, work)], nextEdition + 1;
      }
    }

    // The routes of a command, in order.
    method SettleRoutes(user: UserId, work: WorkId, inputs: seq<RouteInput>) returns (ok: bool)
      requires Sound()
      modifies `routes, `nextRoute, `editions, `nextEdition
      ensures Sound()
      ensures ok ==> RoutedUpTo(Table(old(routes), old(nextRoute)), Table(routes, nextRoute), editions, user, work,
                            inputs, |inputs|)
    {
      ok := true;
      ghost var before := Table(routes, nextRoute);
      NoneRouted(before, editions, user, work, inputs);
      for n := 0 to |inputs|
        invariant Sound()
        invariant RoutedUpTo(before, Table(routes, nextRoute), editions, user, work, inputs, n)
      {
        ghost var mid, held := Table(routes, nextRoute), editions;
        ok := SettleRoute(user, work, inputs[n]);
        if !ok {
          return;
        }
        RoutedStays(before, mid, held, editions, user, work, inputs, n);
        OneMoreRouted(before, mid, Table(routes, nextRoute), editions, user, work, inputs, n + 1);
      }
    }

    method PutContributors(c: Command, work: WorkId) returns (ok: bool)
      requires Sound() && work in works && works[work].user == c.user
      requires c.Primary() in authors && authors[c.Primary()] == c.user
      modifies `staffs
      ensures Sound()
      ensures ok <==> c.origin == ReviewCards.WorkUpdateRekey
                      || Contributors.CanMerge(old(staffs)[work].rows, AuthorsOf(authors, c.user), c.contributors)
      ensures staffs == if ok then old(staffs)[work := StaffAfter(old(staffs)[work], c)] else old(staffs)
    {
      var rows := new Contributors.WorkContributors(staffs[work], AuthorsOf(authors, c.user));
      if c.origin == ReviewCards.WorkUpdateRekey {
        rows.SetPrimary(c.Primary());
        ok := true;
      } else {
        ok := rows.Merge(c.contributors);
      }
      if ok {
        staffs := staffs[work := rows.Current()];
      }
      assert Staffed(works, staffs, authors);
    }

    method CancelSatisfied(user: UserId, work: WorkId, inputs: seq<RouteInput>)
      modifies desk`cards
      ensures desk.cards == Answered(old(desk.cards), user, work, inputs)
    {
      desk.cards := Answered(desk.cards, user, work, inputs);
    }

    // The minting loop trusts the preflight decisions (see FreshAgrees).
    method MintCards(c: Command, work: WorkId, dispositions: seq<bool>) returns (ok: bool)
      requires ReviewCards.Valid(desk.Current()) && |dispositions| == |c.cards|
      modifies desk`cards, desk`nextCard
      ensures ReviewCards.Valid(desk.Current())
      ensures ok ==> desk.Current() == MintedUpTo(old(desk.Current()), c, work, dispositions, |c.cards|)
      ensures ok ==> AllHandled(desk.Current(), c, work, dispositions, |c.cards|)
    {
      ok := true;
      for n := 0 to |c.cards|
        invariant ReviewCards.Valid(desk.Current())
        invariant desk.Current() == MintedUpTo(old(desk.Current()), c, work, dispositions, n)
        invariant AllHandled(desk.Current(), c, work, dispositions, n)
      {
        ok := MintCard(c, n, work, dispositions);
        if !ok {
          return;
        }
      }
    }

    method MintCard(c: Command, n: nat, work: WorkId, dispositions: seq<bool>) returns (ok: bool)
      requires ReviewCards.Valid(desk.Current()) && n < |c.cards| == |dispositions|
      modifies desk`cards, desk`nextCard
      ensures ReviewCards.Valid(desk.Current())
      ensures desk.Current() == ReviewCards.Mint(old(desk.Current()), CardProposal(c, n, work, dispositions))
      ensures ok && AllHandled(old(desk.Current()), c, work, dispositions, n)
          ==> AllHandled(desk.Current(), c, work, dispositions, n + 1)
    {
      ghost var d := desk.Current();
      var p := CardProposal(c, n, work, dispositions);
      var outcome := desk.MintReuseOrSuppress(p);
      ok := !outcome.Refused?;
      if ok {
        OneMoreHandled(d, c, n, work, dispositions);
      }
    }

    // `commit_settlement_in_tx` and its commit: everything or nothing.
    method Settle(c: Command) returns (r: Result<WorkId, Error>)
      requires Sound() && ReviewCards.Valid(desk.Current())
      modifies `works, `nextWork, `routes, `nextRoute, `editions, `nextEdition, `retries, `staffs, desk`cards,
          desk`nextCard,
               desk`works
      ensures Sound() && ReviewCards.Valid(desk.Current())
      ensures r.Err? ==> Stored() == old(Stored()) && desk.Current() == old(desk.Current())
      ensures r == Err(StandingDismissal)
         <==> PreflightReply(old(desk.Current()), old(routes), old(authors), c) == Err(StandingDismissal)
      ensures r.Ok? ==>
                && Committed(old(Stored()), Stored(), c, r.value)
                && desk.Current() == DeskAfter(old(desk.Current()), c, r.value)
                && forall k :: 0 <= k < |c.cards| && !CardSuppressed(old(desk.Current()), c, c.cards[k]) ==>
                     Handled(desk.Current(), c, c.cards[k], r.value)
    {
      var dispositions := Preflight(c);
      if dispositions.Err? {
        return Err(dispositions.error);
      }
      r := WriteOrRollBack(c, dispositions.value);
    }

    // A failing write leaves no trace.
    method WriteOrRollBack(c: Command, dispositions: seq<bool>) returns (r: Result<WorkId, Error>)
      requires Sound() && ReviewCards.Valid(desk.Current())
      requires dispositions == Dispositions(desk.Current(), c, c.cards)
      requires c.Primary() in authors && authors[c.Primary()] == c.user
      modifies `works, `nextWork, `routes, `nextRoute, `editions, `nextEdition, `retries, `staffs, desk`cards,
          desk`nextCard,
               desk`works
      ensures Sound() && ReviewCards.Valid(desk.Current()) && r != Err(StandingDismissal)
      ensures r.Err? ==> Stored() == old(Stored()) && desk.Current() == old(desk.Current())
      ensures r.Ok? ==>
                && Committed(old(Stored()), Stored(), c, r.value)
                && desk.Current() == DeskAfter(old(desk.Current()), c, r.value)
                && AllHandled(desk.Current(), c, r.value, dispositions, |c.cards|)
    {
      var saved, savedDesk, savedEdition := Stored(), desk.Current(), nextEdition;
      r := Write(c, dispositions, savedDesk);
      if r.Err? {
        Restore(saved, savedDesk, savedEdition);
      }
    }

    method Restore(s: Tables, d: ReviewCards.Desk, edition: EditionId)
      requires desk.standing == d.standing
      modifies `works, `nextWork, `routes, `nextRoute, `editions, `nextEdition, `retries, `staffs, desk`cards,
               desk`nextCard, desk`works
      ensures Stored() == s && desk.Current() == d && nextEdition == edition
    {
      works, nextWork, routes, nextRoute := s.works, s.nextWork, s.routes.routes, s.routes.nextRoute;
      editions, nextEdition, retries, staffs := s.editions, edition, s.retries, s.staffs;
      desk.cards, desk.nextCard, desk.works := d.cards, d.nextCard, d.works;
    }

    // Everything after the checks.
    method Write(c: Command, dispositions: seq<bool>, ghost before: ReviewCards.Desk) returns (r: Result<WorkId, Error>)
      requires Sound() && ReviewCards.Valid(desk.Current()) && before == desk.Current()
      requires dispositions == Dispositions(before, c, c.cards)
      requires c.Primary() in authors && authors[c.Primary()] == c.user
      modifies `works, `nextWork, `routes, `nextRoute, `editions, `nextEdition, `retries, `staffs, desk`cards,
          desk`nextCard,
               desk`works
      ensures r != Err(StandingDismissal)
      ensures r.Ok? ==>
                && Sound() && ReviewCards.Valid(desk.Current())
                && Committed(old(Stored()), Stored(), c, r.value)
                && desk.Current() == DeskAfter(old(desk.Current()), c, r.value)
                && AllHandled(desk.Current(), c, r.value, dispositions, |c.cards|)
    {
      r := WriteIdentity(c);
      if r.Ok? {
        var minted := MintCards(c, r.value, dispositions);
        if !minted {
          return Err(CardRefused);
        }
      }
    }

    // The work, its routes, the cards they answer, status and retry rows.
    method WriteIdentity(c: Command) returns (r: Result<WorkId, Error>)
      requires Sound() && ReviewCards.Valid(desk.Current())
      requires c.Primary() in authors && authors[c.Primary()] == c.user
      modifies `works, `nextWork, `routes, `nextRoute, `editions, `nextEdition, `retries, `staffs, desk`cards,
          desk`works
      ensures r != Err(StandingDismissal)
      ensures r.Ok? ==>
                && Sound() && ReviewCards.Valid(desk.Current())
                && Committed(old(Stored()), Stored(), c, r.value)
                && desk.Current() == Opened(old(desk.Current()), c, r.value)
    {
      ghost var s0 := Stored();
      var graph := GraphOf(routes, c);
      r := ClaimWork(c);
      if r.Err? {
        return;
      }
      ghost var claimed := Stored();
      var written := WriteRest(c, r.value, graph);
      if written.Some? {
        return Err(written.value);
      }
      Assemble(s0, claimed, Stored(), c, r.value);
    }

    // None where everything was written.
    method WriteRest(c: Command, work: WorkId, graph: seq<GraphRow>) returns (failure: Option<Error>)
      requires Sound() && ReviewCards.Valid(desk.Current()) && work in works && works[work].user == c.user
      requires c.Primary() in authors && authors[c.Primary()] == c.user
      requires graph == GraphOf(routes, c) && (c.existing.Some? ==> c.existing == Some(work))
      modifies `works, `routes, `nextRoute, `editions, `nextEdition, `retries, `staffs, desk`cards
      ensures failure != Some(StandingDismissal)
      ensures failure.None? ==>
                && Sound() && ReviewCards.Valid(desk.Current())
                && Completed(old(Stored()), Stored(), c, work)
                && desk.cards == Answered(old(desk.cards), c.user, work, c.routes)
    {
      ghost var before := Stored();
      var staffed := PutContributors(c, work);
      if !staffed {
        return Some(ContributorRefused);
      }
      var routed := WriteRoutes(c, work, graph, before);
      failure := if routed then None else Some(NotFound);
    }

    method WriteRoutes(c: Command, work: WorkId, graph: seq<GraphRow>, ghost before: Tables) returns (ok: bool)
      requires Sound() && ReviewCards.Valid(desk.Current()) && work in works
      requires graph == GraphOf(routes, c) && (c.existing.Some? ==> c.existing == Some(work))
      requires work in before.staffs && Contributors.DistinctOrdinals(before.staffs[work].rows)
      requires Stored() == before.(staffs := before.staffs[work := StaffAfter(before.staffs[work], c)])
      modifies `works, `routes, `nextRoute, `editions, `nextEdition, `retries, desk`cards
      ensures ok ==>
                && Sound() && ReviewCards.Valid(desk.Current())
                && Completed(before, Stored(), c, work)
                && desk.cards == Answered(old(desk.cards), c.user, work, c.routes)
    {
      ok := PutRoutes(c.user, work, c.routes);
      if ok {
        WriteStatus(c, work, graph, before.routes.routes);
        Complete(before, Stored(), c, work);
      }
    }

    method WriteStatus(c: Command, work: WorkId, graph: seq<GraphRow>, ghost earlier: Routes)
      requires Sound() && work in works
      requires graph == GraphOf(earlier, c) && (c.existing.Some? ==> c.existing == Some(work))
      modifies `works, `retries
      ensures Sound()
      ensures works == old(works)[work := old(works)[work].(status := Projection(routes, c.user, work))]
      ensures retries == KeptRetries(old(retries), earlier, routes, c, work)
    {
      SetStatus(c.user, work);
      DropStaleRetries(c, work, graph, earlier);
    }

    method PutRoutes(user: UserId, work: WorkId, inputs: seq<RouteInput>) returns (ok: bool)
      requires Sound() && ReviewCards.Valid(desk.Current())
      modifies `routes, `nextRoute, `editions, `nextEdition, desk`cards
      ensures Sound() && ReviewCards.Valid(desk.Current())
      ensures ok ==> desk.cards == Answered(old(desk.cards), user, work, inputs)
      ensures ok ==> RoutedUpTo(Table(old(routes), old(nextRoute)), Table(routes, nextRoute), editions, user, work,
                            inputs, |inputs|)
    {
      ok := SettleRoutes(user, work, inputs);
      if ok {
        CancelSatisfied(user, work, inputs);
      }
    }

    // Retry rows by the route graph, as it was read before the writes.
    method DropStaleRetries(c: Command, work: WorkId, graph: seq<GraphRow>, ghost earlier: Routes)
      requires c.existing.Some? ==> c.existing == Some(work)
      requires graph == GraphOf(earlier, c)
      modifies `retries
      ensures retries == KeptRetries(old(retries), earlier, routes, c, work)
    {
      if c.existing.Some? {
        var changed;
        retries, changed := InvalidateRetryState(routes, retries, c.user, work, graph, earlier);
      }
    }

    method SetStatus(user: UserId, work: WorkId)
      requires Sound() && work in works
      modifies `works
      ensures Sound()
      ensures works == old(works)[work := old(works)[work].(status := Projection(routes, user, work))]
    {
      works := works[work := works[work].(status := Projection(routes, user, work))];
      SoundWithout(old(works), works, nextWork, staffs, authors, desk.works);
    }

    // `recompute_work_projections`.
    method RecomputeProjections(work: WorkId, expected: int) returns (r: Result<(), Error>)
      requires Sound()
      modifies `works
      ensures Sound()
      ensures r == if work !in old(works) then Err(NotFound)
                   else if old(works)[work].generation != expected then Err(StaleGeneration) else Ok(())
      ensures GenerationsOf(works) == Next(GenerationsOf(old(works)), Claim(work, expected))
      ensures r.Ok? ==> works == old(works)[work := old(works)[work].(
                status := Projection(routes, old(works)[work].user, work), generation := expected + 1)]
    {
      if work !in works {
        return Err(NotFound);
      }
      if works[work].generation != expected {
        return Err(StaleGeneration);
      }
      works := works[work := works[work].(
        status := Projection(routes, works[work].user, work), generation := expected + 1)];
      SoundWithout(old(works), works, nextWork, staffs, authors, desk.works);
      r := Ok(());
    }

    // `transfer_route`: the source work's generation is the lock, and both
    // works lose their retry rows exactly when their graphs changed. The
    // status columns are not recomputed.
    method TransferRoute(user: UserId, id: RouteIdentity, target: Owner, expected: int) returns (r: Result<(), Error>)
      requires Sound()
      modifies `works, `routes, `retries
      ensures Sound()
      ensures r == TransferReply(old(works), old(routes), editions, user, id, target, expected)
      ensures r.Err? ==> works == old(works) && routes == old(routes) && retries == old(retries)
      ensures r.Ok? ==> exists k ::
                Transferred(old(works), old(routes), old(retries), works, routes, retries, k, user, id, target,
                    expected)
    {
      var holders := Holders(routes, user, id);
      if holders == {} {
        return Err(NotFound);
      }
      if |holders| != 1 {
        return Err(StillAmbiguous);
      }
      ghost var some := AnElement(holders);
      var k :| k in holders;
      OnlyHolder(holders, k);
      var source := routes[k].resolved;
      var to := TargetWork(works, editions, user, target);
      if to.None? {
        return Err(NotFound);
      }
      if !AtGeneration(works, user, source, expected) {
        return Err(StaleGeneration);
      }
      MoveRoute(user, k, target, source, to.value, expected);
      r := Ok(());
      TransferredBy(old(works), old(routes), old(retries), works, routes, retries, k, user, id, target, to.value,
          expected);
    }

    // The two UPDATEs and the two invalidations.
    method MoveRoute(user: UserId, k: RouteId, target: Owner, source: WorkId, to: WorkId, expected: int)
      requires Sound() && k in routes && source in works
      modifies `works, `routes, `retries
      ensures Sound()
      ensures routes == old(routes)[k := old(routes)[k].(owner := target, resolved := to)]
      ensures works == old(works)[source := old(works)[source].(generation := expected + 1)]
      ensures retries == AfterMove(old(retries), old(routes), routes, user, source, to)
    {
      ghost var earlier := routes;
      var graph, graphTo := Repoint(user, k, target, source, to, expected);
      DropBoth(user, source, to, graph, graphTo, earlier);
    }

    method Repoint(user: UserId, k: RouteId, target: Owner, source: WorkId, to: WorkId, expected: int)
      returns (graph: seq<GraphRow>, graphTo: seq<GraphRow>)
      requires Sound() && k in routes && source in works
      modifies `works, `routes
      ensures Sound()
      ensures routes == old(routes)[k := old(routes)[k].(owner := target, resolved := to)]
      ensures works == old(works)[source := old(works)[source].(generation := expected + 1)]
      ensures graph == ReadGraph(old(routes), user, source) && graphTo == ReadGraph(old(routes), user, to)
    {
      graph, graphTo := ReadGraph(routes, user, source), ReadGraph(routes, user, to);
      routes := routes[k := routes[k].(owner := target, resolved := to)];
      works := works[source := works[source].(generation := expected + 1)];
      SoundWithout(old(works), works, nextWork, staffs, authors, desk.works);
    }

    method DropBoth(
        user: UserId, source: WorkId, to: WorkId, graph: seq<GraphRow>, graphTo: seq<GraphRow>, ghost earlier: Routes)
      requires graph == ReadGraph(earlier, user, source) && graphTo == ReadGraph(earlier, user, to)
      modifies `retries
      ensures retries == AfterMove(old(retries), earlier, routes, user, source, to)
    {
      DropRetriesOf(user, source, graph, earlier);
      if to != source {
        DropRetriesOf(user, to, graphTo, earlier);
      }
    }

    method DropRetriesOf(user: UserId, work: WorkId, graph: seq<GraphRow>, ghost earlier: Routes)
      requires graph == ReadGraph(earlier, user, work)
      modifies `retries
      ensures retries == Invalidated(old(retries), earlier, routes, user, work)
    {
      var changed;
      retries, changed := InvalidateRetryState(routes, retries, user, work, graph, earlier);
    }
  }

  lemma OnlyHolder(holders: set<RouteId>, k: RouteId)
    requires k in holders && |holders| == 1
    ensures holders == {k}
  {
    var rest := holders - {k};
    assert |rest| == 0;
    assert holders == rest + {k};
  }

  ghost function AfterMove(
      retries: Retries, before: Routes, after: Routes, user: UserId, source: WorkId, to: WorkId): Retries
  {
    var left := Invalidated(retries, before, after, user, source);
    if to == source then left else Invalidated(left, before, after, user, to)
  }

  lemma TransferredBy(
      works: map<WorkId, Work>, routes: Routes, retries: Retries,
      works': map<WorkId, Work>, routes': Routes, retries': Retries,
      k: RouteId, user: UserId, id: RouteIdentity, target: Owner, to: WorkId, expected: int)
    requires k in routes && Holders(routes, user, id) == {k}
    requires var source := routes[k].resolved;
             && source in works && works[source].generation == expected
             && routes' == routes[k := routes[k].(owner := target, resolved := to)]
             && works' == works[source := works[source].(generation := expected + 1)]
             && retries' == AfterMove(retries, routes, routes', user, source, to)
    ensures Transferred(works, routes, retries, works', routes', retries', k, user, id, target, expected)
  {
    var source := routes[k].resolved;
    assert routes'[k].resolved == to;
    RaiseIsClaim(works, source, expected);
    AfterMoveMembers(retries, routes, routes', user, source, to);
  }

  lemma RaiseIsClaim(works: map<WorkId, Work>, w: WorkId, expected: int)
    requires w in works && works[w].generation == expected
    ensures GenerationsOf(works[w := works[w].(generation := expected + 1)])
         == Next(GenerationsOf(works), Claim(w, expected))
  {
    GenerationsWith(works, w, works[w].(generation := expected + 1));
    assert Accepts(GenerationsOf(works), Claim(w, expected));
  }

  lemma AfterMoveMembers(retries: Retries, routes: Routes, routes': Routes, user: UserId, source: WorkId, to: WorkId)
    ensures forall r :: r in AfterMove(retries, routes, routes', user, source, to)
              <==> r in retries && !Moved(routes, routes', user, r.0, source, to)
  {
    var left := Invalidated(retries, routes, routes', user, source);
    InvalidatedMembers(retries, routes, routes', user, source);
    InvalidatedMembers(left, routes, routes', user, to);
  }

  lemma InvalidatedMembers(retries: Retries, routes: Routes, routes': Routes, user: UserId, work: WorkId)
    ensures forall r :: r in Invalidated(retries, routes, routes', user, work)
              <==> r in retries && !(r.0 == work && Changed(routes, routes', user, work))
  {}

  function RouteFor(user: UserId, work: WorkId, owner: Owner, r: RouteInput): Route {
    Route(user, owner, work, r.provider, r.kind, r.value, r.active, r.provenance, r.confirmed)
  }

  ghost function KeptRetries(retries: Retries, before: Routes, after: Routes, c: Command, work: WorkId): Retries {
    if c.existing.Some? then Invalidated(retries, before, after, c.user, work) else retries
  }

  // The tables that a settlement writes.
  datatype Tables = Tables(
    works: map<WorkId, Work>, nextWork: WorkId, routes: Table, editions: map<EditionId, (UserId, WorkId)>,
    retries: Retries, staffs: map<WorkId, Contributors.Staff>)

  // Everything after the generation claim: the status that the routes project,
  // the routes of the command inserted in order, and the retry rows of the work
  // gone exactly when its active graph changed.
  ghost predicate Completed(s: Tables, s': Tables, c: Command, work: WorkId) {
    && work in s.works && work in s.staffs && Contributors.DistinctOrdinals(s.staffs[work].rows)
    && s'.staffs == s.staffs[work := StaffAfter(s.staffs[work], c)]
    && s'.works == s.works[work := s.works[work].(status := Projection(s'.routes.routes, c.user, work))]
    && s'.retries == KeptRetries(s.retries, s.routes.routes, s'.routes.routes, c, work)
    && RoutedUpTo(s.routes, s'.routes, s'.editions, c.user, work, c.routes, |c.routes|)
  }

  lemma Complete(s: Tables, s': Tables, c: Command, work: WorkId)
    requires work in s.works && work in s.staffs && Contributors.DistinctOrdinals(s.staffs[work].rows)
    requires s'.staffs == s.staffs[work := StaffAfter(s.staffs[work], c)]
    requires s'.works == s.works[work := s.works[work].(status := Projection(s'.routes.routes, c.user, work))]
    requires s'.retries == KeptRetries(s.retries, s.routes.routes, s'.routes.routes, c, work)
    requires RoutedUpTo(s.routes, s'.routes, s'.editions, c.user, work, c.routes, |c.routes|)
    ensures Completed(s, s', c, work)
  {}

  function ClaimedTables(s: Tables, c: Command, work: WorkId): Tables {
    s.(works := s.works[work := ClaimedWork(s.works, c)], staffs := Hired(s.staffs, work))
  }

  // What a committed settlement leaves: the claimed work one generation on,
  // and the settlement completed on it.
  ghost predicate Committed(s: Tables, s': Tables, c: Command, work: WorkId) {
    ClaimReply(s.works, s.nextWork, c) == Ok(work)
    && Completed(ClaimedTables(s, c, work), s', c, work)
  }

  lemma Assemble(s: Tables, claimed: Tables, s': Tables, c: Command, work: WorkId)
    requires ClaimReply(s.works, s.nextWork, c) == Ok(work)
    requires claimed.(nextWork := s.nextWork) == ClaimedTables(s, c, work)
    requires Completed(claimed, s', c, work)
    ensures Committed(s, s', c, work)
  {}

  lemma {:induction false} LeadsAre(contributors: seq<Contributors.Request>)
    ensures forall r :: r in Leads(contributors) <==> r in contributors && r.ordinal == 0
  {
    if contributors != [] {
      LeadsAre(contributors[..|contributors| - 1]);
      assert forall r :: r in contributors <==>
        r in contributors[..|contributors| - 1] || r == contributors[|contributors| - 1];
    }
  }

  lemma LeadFirstIff(c: Command)
    requires |Leads(c.contributors)| == 1 && Contributors.DistinctRequest(c.contributors)
    ensures c.contributors != []
    ensures c.contributors[0].author == c.Primary() <==> c.contributors[0].ordinal == 0
  {
    var requested, leads := c.contributors, Leads(c.contributors);
    LeadsAre(requested);
    assert leads[0] in leads;
    var k :| 0 <= k < |requested| && requested[k] == leads[0];
    assert requested[0] in requested;
    assert requested[0].ordinal == 0 ==> requested[0] in leads;
  }

  // The author whose row a command puts first.
  function FirstRow(c: Command): AuthorId
    requires c.contributors != []
  {
    c.contributors[Contributors.FirstFinal(Contributors.AuthorsOf(c.contributors))].author
  }

  lemma StaffPrimary(staff: Contributors.Staff, c: Command, authors: set<AuthorId>)
    requires Contributors.ValidStaff(staff, authors) && c.contributors != [] && c.Primary() in authors
    ensures var rows := StaffAfter(staff, c).rows;
            && rows != map[] && Contributors.DistinctOrdinals(rows)
            && Contributors.PrimaryOf(rows)
               == if c.origin == ReviewCards.WorkUpdateRekey then c.Primary() else FirstRow(c)
  {
    if c.origin == ReviewCards.WorkUpdateRekey {
      Contributors.ReplacedIsPrimary(staff, authors, c.Primary());
    } else {
      Contributors.FinalIsPrimary(staff, c.contributors);
    }
  }

  lemma CommittedStaff(s: Tables, s': Tables, c: Command, work: WorkId)
    requires Committed(s, s', c, work)
    ensures work in s'.staffs && Contributors.DistinctOrdinals(Hired(s.staffs, work)[work].rows)
    ensures s'.staffs[work] == StaffAfter(Hired(s.staffs, work)[work], c)
    ensures work in s'.works && s'.works[work].primary == c.Primary()
  {}

  // The work's author column names the contributor of ordinal 0, but the rows
  // are numbered in the order of the command, a repeated author at its last
  // place. So column and first row agree exactly when that contributor is the
  // first author of the command that is not named again later, or when only the
  // primary is replaced.
  lemma PrimaryAgreesIff(s: Tables, s': Tables, c: Command, work: WorkId, authors: set<AuthorId>)
    requires Committed(s, s', c, work) && |Leads(c.contributors)| == 1 && c.Primary() in authors
    requires Contributors.ValidStaff(Hired(s.staffs, work)[work], authors)
    ensures work in s'.staffs && work in s'.works && c.contributors != []
    ensures var rows := s'.staffs[work].rows;
            && rows != map[] && Contributors.DistinctOrdinals(rows)
            && (Contributors.PrimaryOf(rows) == s'.works[work].primary
                <==> c.origin == ReviewCards.WorkUpdateRekey || FirstRow(c) == c.Primary())
  {
    LeadsAre(c.contributors);
    assert Leads(c.contributors)[0] in c.contributors;
    CommittedStaff(s, s', c, work);
    StaffPrimary(Hired(s.staffs, work)[work], c, authors);
  }

  // Where no author is named twice: when the contributor of ordinal 0 comes
  // first.
  lemma PrimaryAgreesWhenFirst(c: Command)
    requires |Leads(c.contributors)| == 1 && Contributors.DistinctRequest(c.contributors)
    ensures c.contributors != []
    ensures FirstRow(c) == c.Primary() <==> c.contributors[0].ordinal == 0
  {
    LeadFirstIff(c);
    Contributors.FirstFinalOfDistinct(c.contributors);
  }

  // A new work for these contributors, in empty tables.
  function NewBook(contributors: seq<Contributors.Request>): Command {
    Command(1, None, 0, Title("hobbit", "", ""), None, [], contributors, [], [], ReviewCards.AnyOther, false)
  }

  const NoTables := Tables(map[], 1, Table(map[], 1), map[], {}, map[])

  function Written(c: Command): Tables {
    NoTables.(works := map[1 := ClaimedWork(map[], c)],
              nextWork := 2,
              staffs := map[1 := Contributors.MergedStaff(Contributors.NOBODY, c.contributors)])
  }

  lemma NewBookCommits(c: Command)
    requires c == NewBook(c.contributors)
    ensures Committed(NoTables, Written(c), c, 1)
    ensures Written(c).works[1].primary == c.Primary()
    ensures Written(c).staffs[1] == Contributors.MergedStaff(Contributors.NOBODY, c.contributors)
  {
    var claimed := ClaimedTables(NoTables, c, 1);
    NewBookIsStaffed(c);
    NoneRouted(Table(map[], 1), map[], 1, 1, []);
    Complete(claimed, Written(c), c, 1);
  }

  lemma NewBookIsStaffed(c: Command)
    requires c == NewBook(c.contributors)
    ensures ClaimedTables(NoTables, c, 1).works == map[1 := ClaimedWork(map[], c)]
    ensures ClaimedTables(NoTables, c, 1).staffs == map[1 := Contributors.NOBODY]
    ensures Written(c).staffs == map[1 := StaffAfter(Contributors.NOBODY, c)]
    ensures Written(c).works == map[1 := ClaimedWork(map[], c).(status := Projection(map[], 1, 1))]
  {}

  lemma LeadsSnoc(front: seq<Contributors.Request>, last: Contributors.Request)
    ensures Leads(front + [last]) == if last.ordinal == 0 then Leads(front) + [last] else Leads(front)
  {
    assert (front + [last])[..|front|] == front;
  }

  // Two contributors in the other order: the first row is author 5, the column
  // says author 6.
  lemma PrimaryCanDisagree()
    ensures var c := NewBook([Contributors.Request(5, 1, []), Contributors.Request(6, 0, [])]);
            && |Leads(c.contributors)| == 1 && Committed(NoTables, Written(c), c, 1)
            && Written(c).works[1].primary == 6 && Written(c).staffs[1].rows == map[5 := 0, 6 := 1]
  {
    var five, six := Contributors.Request(5, 1, []), Contributors.Request(6, 0, []);
    LeadsSnoc([], five);
    LeadsSnoc([five], six);
    assert [] + [five] == [five] && [five] + [six] == [five, six];
    NewBookCommits(NewBook([five, six]));
    RowsOf([five, six], [5, 6]);
    Contributors.PairNumbered();
  }

  // Listing it first is not enough: here author 5 is named again, so author 6
  // gets the first row.
  lemma RepeatedPrimaryDisagrees()
    ensures var c := NewBook(
                       [Contributors.Request(5, 0, []), Contributors.Request(6, 1, []),
                        Contributors.Request(5, 2, [])]);
            && |Leads(c.contributors)| == 1 && Committed(NoTables, Written(c), c, 1)
            && Written(c).works[1].primary == 5 && Written(c).staffs[1].rows == map[5 := 2, 6 := 1]
  {
    var first, six, again :=
      Contributors.Request(5, 0, []), Contributors.Request(6, 1, []), Contributors.Request(5, 2, []);
    LeadsSnoc([], first);
    LeadsSnoc([first], six);
    LeadsSnoc([first, six], again);
    assert [] + [first] == [first] && [first] + [six] == [first, six];
    assert [first, six] + [again] == [first, six, again];
    NewBookCommits(NewBook([first, six, again]));
    RowsOf([first, six, again], [5, 6, 5]);
    Contributors.PairNumbered();
  }

  // A work without contributors takes the rows of the request alone.
  lemma RowsOf(requested: seq<Contributors.Request>, named: seq<AuthorId>)
    requires named == Contributors.AuthorsOf(requested)
    ensures Contributors.MergedStaff(Contributors.NOBODY, requested).rows == Contributors.Numbered(named)
  {
    assert Contributors.Listing(map[]) == [];
    assert Contributors.OrderOf(map[], requested) == named;
  }

  // A committed settlement of an existing work is an accepted claim on the
  // generation it was built on.
  lemma CommitIsClaim(s: Tables, s': Tables, c: Command, work: WorkId)
    requires Committed(s, s', c, work) && c.existing.Some?
    ensures c.existing == Some(work) && Accepts(GenerationsOf(s.works), Claim(work, c.expected))
    ensures GenerationsOf(s'.works) == Next(GenerationsOf(s.works), Claim(work, c.expected))
  {
    var claimed := s.works[work := ClaimedWork(s.works, c)];
    GenerationsWith(s.works, work, claimed[work]);
    GenerationsWith(claimed, work, s'.works[work]);
  }

  lemma GenerationsWith(works: map<WorkId, Work>, w: WorkId, row: Work)
    ensures GenerationsOf(works[w := row]) == GenerationsOf(works)[w := row.generation]
  {}

  // The first n routes of a command inserted in order, each under an owner
  // that fits it.
  ghost predicate RoutedUpTo(
      t: Table, t': Table, editions: map<EditionId, (UserId, WorkId)>, user: UserId, work: WorkId,
      inputs: seq<RouteInput>, n: nat)
    requires n <= |inputs|
  {
    exists states: seq<Table> :: RoutedThrough(states, editions, user, work, inputs, n)
      && states[0] == t && states[n] == t'
  }

  ghost predicate RoutedThrough(
      states: seq<Table>, editions: map<EditionId, (UserId, WorkId)>, user: UserId, work: WorkId,
      inputs: seq<RouteInput>, n: nat)
    requires n <= |inputs|
  {
    |states| == n + 1
    && forall k: nat :: k < n ==> RoutedOne(states[k], states[k + 1], editions, user, work, inputs[k])
  }

  ghost predicate RoutedOne(
      t: Table, t': Table, editions: map<EditionId, (UserId, WorkId)>, user: UserId, work: WorkId, input: RouteInput)
  {
    exists owner: Owner :: OwnerFits(editions, user, work, owner, input)
      && t' == Inserted(t, RouteFor(user, work, owner, input))
  }

  ghost predicate Grown(a: map<EditionId, (UserId, WorkId)>, b: map<EditionId, (UserId, WorkId)>) {
    forall e :: e in a ==> e in b && b[e] == a[e]
  }

  // New editions disturb no route that has been settled.
  lemma RoutedStays(
      t: Table, t': Table, held: map<EditionId, (UserId, WorkId)>, editions: map<EditionId, (UserId, WorkId)>,
      user: UserId, work: WorkId, inputs: seq<RouteInput>, n: nat)
    requires n <= |inputs| && RoutedUpTo(t, t', held, user, work, inputs, n) && Grown(held, editions)
    ensures RoutedUpTo(t, t', editions, user, work, inputs, n)
  {
    var states: seq<Table> :| RoutedThrough(states, held, user, work, inputs, n) && states[0] == t && states[n] == t';
    forall k: nat | k < n ensures RoutedOne(states[k], states[k + 1], editions, user, work, inputs[k]) {
      OneStays(states[k], states[k + 1], held, editions, user, work, inputs[k]);
    }
    assert RoutedThrough(states, editions, user, work, inputs, n);
  }

  lemma NoneRouted(
      t: Table, editions: map<EditionId, (UserId, WorkId)>, user: UserId, work: WorkId, inputs: seq<RouteInput>)
    ensures RoutedUpTo(t, t, editions, user, work, inputs, 0)
  {
    assert RoutedThrough([t], editions, user, work, inputs, 0);
  }

  lemma OneMoreRouted(
      t: Table, mid: Table, t': Table, editions: map<EditionId, (UserId, WorkId)>, user: UserId, work: WorkId,
      inputs: seq<RouteInput>, n: nat)
    requires 0 < n <= |inputs| && RoutedUpTo(t, mid, editions, user, work, inputs, n - 1)
    requires RoutedOne(mid, t', editions, user, work, inputs[n - 1])
    ensures RoutedUpTo(t, t', editions, user, work, inputs, n)
  {
    var states: seq<Table> :| RoutedThrough(states, editions, user, work, inputs, n - 1)
      && states[0] == t && states[n - 1] == mid;
    assert RoutedThrough(states + [t'], editions, user, work, inputs, n);
  }

  lemma OneStays(
      t: Table, t': Table, held: map<EditionId, (UserId, WorkId)>, editions: map<EditionId, (UserId, WorkId)>,
      user: UserId, work: WorkId, input: RouteInput)
    requires RoutedOne(t, t', held, user, work, input) && Grown(held, editions)
    ensures RoutedOne(t, t', editions, user, work, input)
  {
    var owner: Owner :| OwnerFits(held, user, work, owner, input)
      && t' == Inserted(t, RouteFor(user, work, owner, input));
    assert OwnerFits(editions, user, work, owner, input);
  }

  // A row of the work that one of the inputs identifies.
  predicate Named(row: Route, user: UserId, work: WorkId, inputs: seq<RouteInput>) {
    row.user == user && row.resolved == work && exists k :: 0 <= k < |inputs| && Identifies(inputs[k], row)
  }

  predicate Identifies(r: RouteInput, row: Route) {
    row.provider == r.provider && row.kind == r.kind && row.value == r.value
  }

  // What a settlement does to the routes: every one of the command is on record
  // in the state of the last input for its identifier, no earlier row is lost or
  // weakened, and nothing else is touched.
  lemma RoutesOnRecord(s: Tables, s': Tables, c: Command, work: WorkId)
    requires Committed(s, s', c, work) && ValidTable(s.routes)
    ensures OnRecord(s.routes.routes, s'.routes.routes, c.user, work, c.routes, |c.routes|)
    ensures forall k: nat :: k < |c.routes| && LastFor(c.routes, |c.routes|, k) ==>
              Ends(s'.routes.routes, c.user, work, c.routes, |c.routes|, k)
  {
    RoutedIsExplained(s.routes, s'.routes, s'.editions, c.user, work, c.routes, |c.routes|);
    AllOnRecord(s.routes, s'.routes, s'.editions, c.user, work, c.routes, |c.routes|);
  }

  // ------------------------------------------------------------------
  // The routes after a commit
  // ------------------------------------------------------------------

  predicate SameRoute(a: RouteInput, b: RouteInput) {
    a.provider == b.provider && a.kind == b.kind && a.value == b.value
  }

  // The last of the first n inputs for its identifier.
  predicate LastFor(inputs: seq<RouteInput>, n: nat, k: nat)
    requires k < n <= |inputs|
  {
    forall j :: k < j < n ==> !SameRoute(inputs[j], inputs[k])
  }

  // The row of the work that the inputs of one identifier write.
  function SlotOf(routes: Routes, user: UserId, work: WorkId, input: RouteInput): Option<RouteId> {
    var ids := ExistingIds(routes, RouteFor(user, work, OfWork(work), input));
    if ids == [] then None else Some(ids[0])
  }

  ghost predicate Ends(routes: Routes, user: UserId, work: WorkId, inputs: seq<RouteInput>, n: nat, k: nat)
    requires k < n <= |inputs|
  {
    var slot := SlotOf(routes, user, work, inputs[k]);
    slot.Some? && slot.value in routes && routes[slot.value].active == inputs[k].active
    && Identifies(inputs[k], routes[slot.value]) && routes[slot.value].resolved == work
    && routes[slot.value].user == user
  }

  ghost predicate Activates(
      routes: Routes, user: UserId, work: WorkId, inputs: seq<RouteInput>, n: nat, k: nat, i: RouteId)
    requires k < n <= |inputs|
  {
    LastFor(inputs, n, k) && inputs[k].active && SlotOf(routes, user, work, inputs[k]) == Some(i)
  }

  ghost predicate WasActive(before: Routes, after: Routes, i: RouteId) {
    i in before && i in after && before[i] == after[i] && before[i].active
  }

  // Each identifier ends in the state of its last input, and an active row is
  // one that was active before or that such an input activated.
  ghost predicate Explained(
      before: Routes, after: Routes, user: UserId, work: WorkId, inputs: seq<RouteInput>, n: nat)
    requires n <= |inputs|
  {
    && (forall k: nat :: k < n && LastFor(inputs, n, k) ==> Ends(after, user, work, inputs, n, k))
    && forall i :: i in after && after[i].active ==>
         WasActive(before, after, i) || exists k: nat :: k < n && Activates(after, user, work, inputs, n, k, i)
  }

  lemma {:induction false} RoutedIsExplained(
      t: Table, t': Table, editions: map<EditionId, (UserId, WorkId)>, user: UserId, work: WorkId,
      inputs: seq<RouteInput>, n: nat)
    requires ValidTable(t) && n <= |inputs| && RoutedUpTo(t, t', editions, user, work, inputs, n)
    ensures ValidTable(t') && Explained(t.routes, t'.routes, user, work, inputs, n)
    decreases n
  {
    if n == 0 {
      NoneExplained(t.routes, user, work, inputs);
    } else {
      var mid := LastStep(t, t', editions, user, work, inputs, n);
      RoutedIsExplained(t, mid, editions, user, work, inputs, n - 1);
      ExplainedStep(t, mid, t', editions, user, work, inputs, n);
    }
  }

  lemma NoneExplained(routes: Routes, user: UserId, work: WorkId, inputs: seq<RouteInput>)
    ensures Explained(routes, routes, user, work, inputs, 0)
  {}

  lemma ExplainedStep(
      t: Table, mid: Table, t': Table, editions: map<EditionId, (UserId, WorkId)>, user: UserId, work: WorkId,
      inputs: seq<RouteInput>, n: nat)
    requires 0 < n <= |inputs| && ValidTable(mid) && RoutedOne(mid, t', editions, user, work, inputs[n - 1])
    requires Explained(t.routes, mid.routes, user, work, inputs, n - 1)
    ensures ValidTable(t') && Explained(t.routes, t'.routes, user, work, inputs, n)
  {
    var owner: Owner :| OwnerFits(editions, user, work, owner, inputs[n - 1])
      && t' == Inserted(mid, RouteFor(user, work, owner, inputs[n - 1]));
    var r := RouteFor(user, work, owner, inputs[n - 1]);
    InsertKeepsRows(mid, r, 0);
    OneRowWritten(mid, r);
    forall k: nat | k < n && LastFor(inputs, n, k) ensures Ends(t'.routes, user, work, inputs, n, k) {
      ExistingAfter(mid, r, RouteFor(user, work, OfWork(work), inputs[k]));
      if k < n - 1 {
        assert Ends(mid.routes, user, work, inputs, n - 1, k);
      }
    }
    forall i | i in t'.routes && t'.routes[i].active
      ensures WasActive(t.routes, t'.routes, i)
              || exists k: nat :: k < n && Activates(t'.routes, user, work, inputs, n, k, i)
    {
      ActiveStep(t, mid, t', r, user, work, inputs, n, i);
    }
  }

  lemma ActiveStep(
      t: Table, mid: Table, t': Table, r: Route, user: UserId, work: WorkId, inputs: seq<RouteInput>, n: nat,
      i: RouteId)
    requires 0 < n <= |inputs| && ValidTable(mid) && t' == Inserted(mid, r)
    requires r.resolved == work && r == RouteFor(user, work, r.owner, inputs[n - 1])
    requires Explained(t.routes, mid.routes, user, work, inputs, n - 1) && i in t'.routes && t'.routes[i].active
    ensures WasActive(t.routes, t'.routes, i)
            || exists k: nat :: k < n && Activates(t'.routes, user, work, inputs, n, k, i)
  {
    OneRowWritten(mid, r);
    ExistingAfter(mid, r, RouteFor(user, work, OfWork(work), inputs[n - 1]));
    if i == WrittenRow(mid, r) {
      assert Activates(t'.routes, user, work, inputs, n, n - 1, i);
    } else if !WasActive(t.routes, mid.routes, i) {
      var k: nat :| k < n - 1 && Activates(mid.routes, user, work, inputs, n - 1, k, i);
      StillActivates(mid, t', r, user, work, inputs, n, k, i);
    }
  }

  // An input whose row the next insert leaves alone still accounts for it.
  lemma StillActivates(
      mid: Table, t': Table, r: Route, user: UserId, work: WorkId, inputs: seq<RouteInput>, n: nat, k: nat, i: RouteId)
    requires k + 1 < n <= |inputs| && ValidTable(mid) && t' == Inserted(mid, r) && i != WrittenRow(mid, r)
    requires r.resolved == work && r == RouteFor(user, work, r.owner, inputs[n - 1])
    requires Activates(mid.routes, user, work, inputs, n - 1, k, i)
    ensures Activates(t'.routes, user, work, inputs, n, k, i)
  {
    var s := RouteFor(user, work, OfWork(work), inputs[k]);
    ExistingAfter(mid, r, s);
    if SameRow(s, r) {
      SameExisting(mid.routes, r, s);
    }
  }

  // A commit keeps one active owner of every identifier if and only if no route
  // that it leaves active for its work is held active by another one. The checks
  // before the first write ask this of proposed cards only.
  lemma CommitKeepsOwnersIff(s: Tables, s': Tables, c: Command, work: WorkId)
    requires Committed(s, s', c, work) && ValidTable(s.routes) && OneActiveOwner(s.routes.routes)
    ensures OneActiveOwner(s'.routes.routes)
       <==> !exists k: nat :: k < |c.routes| && LastFor(c.routes, |c.routes|, k)
                              && HeldElsewhere(s.routes.routes, RouteFor(c.user, work, OfWork(work), c.routes[k]))
  {
    var before, after, n := s.routes.routes, s'.routes.routes, |c.routes|;
    RoutesOnRecord(s, s', c, work);
    RoutedIsExplained(s.routes, s'.routes, s'.editions, c.user, work, c.routes, n);
    if k: nat :| k < n && LastFor(c.routes, n, k)
                 && HeldElsewhere(before, RouteFor(c.user, work, OfWork(work), c.routes[k])) {
      HolderStays(before, after, c, work, k);
    } else {
      forall i, j | i in after && j in after && BothActive(after[i], after[j])
        ensures after[i].resolved == after[j].resolved
      {
        if after[i].resolved != after[j].resolved {
          if WasActive(before, after, i) {
            ActivatedBeside(before, after, c, work, j, i);
          } else {
            ActivatedBeside(before, after, c, work, i, j);
          }
        }
      }
    }
  }

  // The other holder is left alone, so both are active afterwards.
  lemma HolderStays(before: Routes, after: Routes, c: Command, work: WorkId, k: nat)
    requires OnRecord(before, after, c.user, work, c.routes, |c.routes|)
    requires Explained(before, after, c.user, work, c.routes, |c.routes|)
    requires k < |c.routes| && LastFor(c.routes, |c.routes|, k)
    requires HeldElsewhere(before, RouteFor(c.user, work, OfWork(work), c.routes[k]))
    ensures !OneActiveOwner(after)
  {
    var r := RouteFor(c.user, work, OfWork(work), c.routes[k]);
    var j :| j in before && BothActive(before[j], r) && before[j].resolved != r.resolved;
    assert RowKept(before[j], after[j]) && !Named(after[j], c.user, work, c.routes);
    assert Ends(after, c.user, work, c.routes, |c.routes|, k);
    var slot := SlotOf(after, c.user, work, c.routes[k]).value;
    assert BothActive(after[slot], after[j]);
  }

  // Where a row that the commit activated meets an active one of another work,
  // that work held the route before.
  lemma ActivatedBeside(before: Routes, after: Routes, c: Command, work: WorkId, i: RouteId, j: RouteId)
    requires OnRecord(before, after, c.user, work, c.routes, |c.routes|)
    requires Explained(before, after, c.user, work, c.routes, |c.routes|)
    requires i in after && j in after && BothActive(after[i], after[j]) && after[i].resolved != after[j].resolved
    requires !WasActive(before, after, i)
    ensures exists k: nat :: k < |c.routes| && LastFor(c.routes, |c.routes|, k)
              && HeldElsewhere(before, RouteFor(c.user, work, OfWork(work), c.routes[k]))
  {
    var k: nat :| k < |c.routes| && Activates(after, c.user, work, c.routes, |c.routes|, k, i);
    assert Ends(after, c.user, work, c.routes, |c.routes|, k);
    var r := RouteFor(c.user, work, OfWork(work), c.routes[k]);
    assert !Named(after[j], c.user, work, c.routes);
    assert BothActive(before[j], r);
    assert HeldElsewhere(before, r);
  }

  ghost predicate OnRecord(before: Routes, after: Routes, user: UserId, work: WorkId, inputs: seq<RouteInput>, n: nat)
    requires n <= |inputs|
  {
    && RowsKept(before, after)
    && (forall k :: 0 <= k < n ==> HasRow(after, user, work, inputs[k]))
    && forall i :: i in after && !Named(after[i], user, work, inputs) ==> i in before && after[i] == before[i]
  }

  lemma NoneOnRecord(t: Table, user: UserId, work: WorkId, inputs: seq<RouteInput>)
    ensures OnRecord(t.routes, t.routes, user, work, inputs, 0)
  {}

  lemma LastStep(
      t: Table, t': Table, editions: map<EditionId, (UserId, WorkId)>, user: UserId, work: WorkId,
      inputs: seq<RouteInput>, n: nat) returns (mid: Table)
    requires 0 < n <= |inputs| && RoutedUpTo(t, t', editions, user, work, inputs, n)
    ensures RoutedUpTo(t, mid, editions, user, work, inputs, n - 1)
    ensures RoutedOne(mid, t', editions, user, work, inputs[n - 1])
  {
    var states: seq<Table> :| RoutedThrough(states, editions, user, work, inputs, n)
      && states[0] == t && states[n] == t';
    mid := states[n - 1];
    assert RoutedThrough(states[..n], editions, user, work, inputs, n - 1);
  }

  lemma {:induction false} AllOnRecord(
      t: Table, t': Table, editions: map<EditionId, (UserId, WorkId)>, user: UserId, work: WorkId,
      inputs: seq<RouteInput>, n: nat)
    requires ValidTable(t) && n <= |inputs| && RoutedUpTo(t, t', editions, user, work, inputs, n)
    ensures ValidTable(t') && OnRecord(t.routes, t'.routes, user, work, inputs, n)
    decreases n
  {
    if n == 0 {
      NoneOnRecord(t, user, work, inputs);
    } else {
      var mid := LastStep(t, t', editions, user, work, inputs, n);
      AllOnRecord(t, mid, editions, user, work, inputs, n - 1);
      OneMoreOnRecord(t, mid, t', editions, user, work, inputs, n);
    }
  }

  lemma OneMoreOnRecord(
      t: Table, mid: Table, t': Table, editions: map<EditionId, (UserId, WorkId)>, user: UserId, work: WorkId,
      inputs: seq<RouteInput>, n: nat)
    requires 0 < n <= |inputs| && ValidTable(mid) && RoutedOne(mid, t', editions, user, work, inputs[n - 1])
    requires OnRecord(t.routes, mid.routes, user, work, inputs, n - 1)
    ensures ValidTable(t') && OnRecord(t.routes, t'.routes, user, work, inputs, n)
  {
    var owner: Owner :| OwnerFits(editions, user, work, owner, inputs[n - 1])
      && t' == Inserted(mid, RouteFor(user, work, owner, inputs[n - 1]));
    var r := RouteFor(user, work, owner, inputs[n - 1]);
    var after := t'.routes;
    InsertKeepsRows(mid, r, 0);
    InsertedRows(mid, user, work, owner, inputs[n - 1]);
    KeptTransitive(t.routes, mid.routes, after);
    forall k | 0 <= k < n ensures HasRow(after, user, work, inputs[k]) {
      if k < n - 1 { RowStays(mid.routes, after, user, work, inputs[k]); }
    }
    OthersUntouched(mid, r);
    forall i | i in after && !Named(after[i], user, work, inputs) ensures i in t.routes && after[i] == t.routes[i] {
      assert !(Identifies(inputs[n - 1], after[i]) && after[i].user == user && after[i].resolved == work);
      assert i in mid.routes && after[i] == mid.routes[i];
    }
  }

  lemma OthersUntouched(t: Table, r: Route)
    ensures forall i :: i in Inserted(t, r).routes && !(Inserted(t, r).routes[i].resolved == r.resolved
                                                       && SameIdentifier(Inserted(t, r).routes[i], r)) ==>
              i in t.routes && Inserted(t, r).routes[i] == t.routes[i]
  {
    ExistingFacts(t.routes, r);
  }

  // An edition of the work, or the work itself where the kind allows it.
  predicate OwnerFits(
      editions: map<EditionId, (UserId, WorkId)>, user: UserId, work: WorkId, owner: Owner, r: RouteInput)
  {
    match owner
    case OfEdition(e) => e in editions && editions[e] == (user, work)
    case OfWork(w) => w == work && !RequiresEdition(r.kind)
  }

  // The work has a row for the identifier.
  ghost predicate HasRow(routes: Routes, user: UserId, work: WorkId, r: RouteInput) {
    exists k :: k in routes && routes[k].resolved == work && routes[k].user == user
      && routes[k].provider == r.provider && routes[k].kind == r.kind && routes[k].value == r.value
  }

  // No row is lost, retargeted, stripped of user or file evidence, unconfirmed.
  ghost predicate RowsKept(before: Routes, after: Routes) {
    forall i :: i in before ==> i in after && RowKept(before[i], after[i])
  }

  ghost predicate RowKept(a: Route, b: Route) {
    && b.resolved == a.resolved && SameIdentifier(b, a)
    && (a.provenance.Sticky() ==> b.provenance == a.provenance) && (a.confirmed ==> b.confirmed)
  }

  lemma InsertedRows(t: Table, user: UserId, work: WorkId, owner: Owner, input: RouteInput)
    requires ValidTable(t)
    ensures var after := Inserted(t, RouteFor(user, work, owner, input)).routes;
            RowsKept(t.routes, after) && HasRow(after, user, work, input)
  {
    var r := RouteFor(user, work, owner, input);
    forall i | i in t.routes ensures i in Inserted(t, r).routes && RowKept(t.routes[i], Inserted(t, r).routes[i]) {
      InsertKeepsRows(t, r, i);
    }
    InsertKeepsRows(t, r, 0);
  }

  lemma KeptTransitive(a: Routes, b: Routes, c: Routes)
    requires RowsKept(a, b) && RowsKept(b, c)
    ensures RowsKept(a, c)
  {
    forall i | i in a ensures i in c && RowKept(a[i], c[i]) {
      assert RowKept(a[i], b[i]) && RowKept(b[i], c[i]);
    }
  }

  lemma RowStays(a: Routes, b: Routes, user: UserId, work: WorkId, r: RouteInput)
    requires RowsKept(a, b) && HasRow(a, user, work, r)
    ensures HasRow(b, user, work, r)
  {
    var k :| k in a && a[k].resolved == work && a[k].user == user
      && a[k].provider == r.provider && a[k].kind == r.kind && a[k].value == r.value;
    assert RowKept(a[k], b[k]);
  }

  function HeldEdition(routes: Routes, user: UserId, r: RouteInput): Option<EditionId> {
    var held := set i | i in routes && routes[i].user == user && routes[i].provider == r.provider
      && routes[i].kind == r.kind && routes[i].value == r.value && routes[i].active && routes[i].owner.OfEdition?;
    var ids := Sorting.InOrder(held, (i: RouteId, j: RouteId) => i <= j);
    if ids == [] then None else assert ids[0] in ids; Some(routes[ids[0]].owner.edition)
  }

  datatype RouteIdentity = RouteIdentity(provider: string, kind: string, value: string)

  function Holders(routes: Routes, user: UserId, id: RouteIdentity): set<RouteId> {
    set i | i in routes && routes[i].user == user && routes[i].active
      && RouteIdentity(routes[i].provider, routes[i].kind, routes[i].value) == id
  }

  function TargetWork(
      works: map<WorkId, Work>, editions: map<EditionId, (UserId, WorkId)>, user: UserId, target: Owner): Option<WorkId>
  {
    match target
    case OfWork(w) => if w in works && works[w].user == user then Some(w) else None
    case OfEdition(e) => if e in editions && editions[e].0 == user then Some(editions[e].1) else None
  }

  // One active row has the identifier, the target exists, and the source work
  // is at the captured generation.
  function TransferReply(
      works: map<WorkId, Work>, routes: Routes, editions: map<EditionId, (UserId, WorkId)>, user: UserId,
      id: RouteIdentity, target: Owner, expected: int): Result<(), Error>
  {
    var holders := Holders(routes, user, id);
    if holders == {} then Err(NotFound)
    else if |holders| != 1 then Err(StillAmbiguous)
    else if TargetWork(works, editions, user, target).None? then Err(NotFound)
    else if exists k :: k in holders && AtGeneration(works, user, routes[k].resolved, expected) then Ok(())
    else Err(StaleGeneration)
  }

  predicate AtGeneration(works: map<WorkId, Work>, user: UserId, w: WorkId, expected: int) {
    w in works && works[w].user == user && works[w].generation == expected
  }

  // The one holder k moved; its old work's generation rose by one from the
  // captured one; retry rows go with a changed graph, on both sides.
  ghost predicate Transferred(
      works: map<WorkId, Work>, routes: Routes, retries: Retries,
      works': map<WorkId, Work>, routes': Routes, retries': Retries,
      k: RouteId, user: UserId, id: RouteIdentity, target: Owner, expected: int)
  {
    && k in routes && k in routes' && Holders(routes, user, id) == {k}
    && var source, to := routes[k].resolved, routes'[k].resolved;
    && routes' == routes[k := routes[k].(owner := target, resolved := to)]
    && source in works && works[source].generation == expected
    && works' == works[source := works[source].(generation := expected + 1)]
    && GenerationsOf(works') == Next(GenerationsOf(works), Claim(source, expected))
    && (forall r :: r in retries' <==> r in retries && !(Moved(routes, routes', user, r.0, source, to)))
  }

  // The work is one of the two, and its active graph changed.
  ghost predicate Moved(routes: Routes, routes': Routes, user: UserId, w: WorkId, source: WorkId, to: WorkId) {
    (w == source && Changed(routes, routes', user, source)) || (w == to && Changed(routes, routes', user, to))
  }

  // ------------------------------------------------------------------
  // Cards of a settlement
  // ------------------------------------------------------------------

  // The cards that the settled routes answer are cancelled.
  function Answered(cards: map<ReviewCards.CardId, ReviewCards.Row>, user: UserId, work: WorkId,
      inputs: seq<RouteInput>):
    map<ReviewCards.CardId, ReviewCards.Row>
  {
    map c | c in cards :: if Satisfied(cards[c], user, work, inputs)
                          then cards[c].(status := ReviewCards.Cancelled) else cards[c]
  }

  // The desk when the minting starts.
  function Opened(d: ReviewCards.Desk, c: Command, work: WorkId): ReviewCards.Desk {
    d.(cards := Answered(d.cards, c.user, work, c.routes), works := d.works + {(c.user, work)})
  }

  // The desk after the first n cards of the command.
  function MintedUpTo(d: ReviewCards.Desk, c: Command, work: WorkId, dispositions: seq<bool>, n: nat): ReviewCards.Desk
    requires n <= |c.cards| == |dispositions|
  {
    if n == 0 then d
    else ReviewCards.Mint(MintedUpTo(d, c, work, dispositions, n - 1), CardProposal(c, n - 1, work, dispositions))
  }

  // What the minting loop proposes for a card.
  function CardProposal(c: Command, n: nat, work: WorkId, dispositions: seq<bool>): ReviewCards.Proposal
    requires n < |c.cards| == |dispositions|
  {
    c.ProposalOf(c.cards[n], Some(work), c.expected + 1, Some(dispositions[n]))
  }

  function DeskAfter(d: ReviewCards.Desk, c: Command, work: WorkId): ReviewCards.Desk {
    MintedUpTo(Opened(d, c, work), c, work, Dispositions(d, c, c.cards), |c.cards|)
  }

  // A question of which every proposal was held back is not asked.
  lemma {:induction false} MintedQuietly(
      d: ReviewCards.Desk, c: Command, work: WorkId, dispositions: seq<bool>, n: nat, key: ReviewCards.Key)
    requires ReviewCards.Valid(d) && n <= |c.cards| == |dispositions|
    requires forall k :: 0 <= k < n && ReviewCards.KeyOf(c.user, c.cards[k], Some(work)) == Some(key) ==>
            dispositions[k]
    ensures ReviewCards.Valid(MintedUpTo(d, c, work, dispositions, n))
    ensures ReviewCards.PendingWith(MintedUpTo(d, c, work, dispositions, n).cards,
            key) == ReviewCards.PendingWith(d.cards, key)
  {
    if n > 0 {
      MintedQuietly(d, c, work, dispositions, n - 1, key);
      var p := CardProposal(c, n - 1, work, dispositions);
      if p.Key() != Some(key) {
        ReviewCards.MintOtherKeys(MintedUpTo(d, c, work, dispositions, n - 1), p, key);
      }
    }
  }

  // A settlement asks no question but its own: of any other, the pending cards
  // afterwards are those from before that no settled route answers.
  lemma AsksOnlyItsOwn(d: ReviewCards.Desk, c: Command, work: WorkId, key: ReviewCards.Key)
    requires ReviewCards.Valid(d)
    requires forall k :: 0 <= k < |c.cards| && ReviewCards.KeyOf(c.user, c.cards[k], Some(work)) == Some(key)
               ==> CardSuppressed(d, c, c.cards[k])
    ensures ReviewCards.PendingWith(DeskAfter(d, c, work).cards, key)
         == set i | i in ReviewCards.PendingWith(d.cards, key) && !Satisfied(d.cards[i], c.user, work, c.routes)
  {
    MintedQuietly(Opened(d, c, work), c, work, Dispositions(d, c, c.cards), |c.cards|, key);
  }

  // Until it is revoked, a dismissed question of an existing work is not asked
  // again by any machine settlement of that work.
  lemma DismissedIsNotAsked(d: ReviewCards.Desk, c: Command, work: WorkId, key: ReviewCards.Key)
    requires ReviewCards.Valid(d) && c.existing == Some(work) && IsMachine(c) && ReviewCards.Standing(d, key)
    ensures ReviewCards.PendingWith(DeskAfter(d, c, work).cards, key) <= ReviewCards.PendingWith(d.cards, key)
    ensures ReviewCards.Standing(DeskAfter(d, c, work), key)
  {
    AsksOnlyItsOwn(d, c, work, key);
    StandingStays(Opened(d, c, work), c, work, Dispositions(d, c, c.cards), |c.cards|);
  }

  lemma {:induction false} StandingStays(
      d: ReviewCards.Desk, c: Command, work: WorkId, dispositions: seq<bool>, n: nat)
    requires n <= |c.cards| == |dispositions|
    ensures MintedUpTo(d, c, work, dispositions, n).standing == d.standing
  {
    if n > 0 {
      StandingStays(d, c, work, dispositions, n - 1);
    }
  }

  // For a work that existed before, the preflight decision on each card is what
  // a fresh read would give when the loop comes to that card.
  lemma FreshAgrees(d: ReviewCards.Desk, c: Command, work: WorkId, n: nat)
    requires c.existing == Some(work) && n < |c.cards|
    ensures var dispositions := Dispositions(d, c, c.cards);
            var atMint := MintedUpTo(Opened(d, c, work), c, work, dispositions, n);
            dispositions[n] == ReviewCards.Suppressed(atMint, CardProposal(c, n, work,
                dispositions).(preflight := None))
  {
    StandingStays(Opened(d, c, work), c, work, Dispositions(d, c, c.cards), n);
  }

  // A card that no dismissal held back is on the desk afterwards.
  ghost predicate Handled(
      d: ReviewCards.Desk, c: Command, card: ReviewCards.Card, work: WorkId)
  {
    var key := ReviewCards.KeyOf(c.user, card, Some(work));
    key.Some? ==> exists id :: ReviewCards.PendingWith(d.cards, key.value) == {id}
  }

  ghost predicate AllHandled(d: ReviewCards.Desk, c: Command, work: WorkId, dispositions: seq<bool>, n: nat)
    requires n <= |c.cards| == |dispositions|
  {
    forall k :: 0 <= k < n && !dispositions[k] ==> Handled(d, c, c.cards[k], work)
  }

  lemma MintHandles(
      d: ReviewCards.Desk, c: Command, n: nat, work: WorkId, suppressed: bool)
    requires ReviewCards.Valid(d) && n < |c.cards| && !suppressed
    requires !ReviewCards.MintOutcome(
               d, c.ProposalOf(c.cards[n], Some(work), c.expected + 1, Some(suppressed))).Refused?
    ensures Handled(ReviewCards.Mint(
              d, c.ProposalOf(c.cards[n], Some(work), c.expected + 1, Some(suppressed))), c, c.cards[n], work)
  {
    var p := c.ProposalOf(c.cards[n], Some(work), c.expected + 1, Some(suppressed));
    if p.Key().Some? {
      ReviewCards.MintLeavesOne(d, p);
    }
  }

  lemma HandledStays(
      d: ReviewCards.Desk, p: ReviewCards.Proposal, c: Command, card: ReviewCards.Card,
      work: WorkId)
    requires ReviewCards.Valid(d) && Handled(d, c, card, work)
    ensures Handled(ReviewCards.Mint(d, p), c, card, work)
  {
    var key := ReviewCards.KeyOf(c.user, card, Some(work));
    if key.Some? {
      if p.Key() == key { ReviewCards.MintLeavesOne(d, p); } else { ReviewCards.MintOtherKeys(d, p, key.value); }
    }
  }

  lemma OneMoreHandled(d: ReviewCards.Desk, c: Command, n: nat, work: WorkId, dispositions: seq<bool>)
    requires ReviewCards.Valid(d) && n < |c.cards| == |dispositions|
    requires !ReviewCards.MintOutcome(d, CardProposal(c, n, work, dispositions)).Refused?
    ensures AllHandled(d, c, work, dispositions, n) ==>
              AllHandled(ReviewCards.Mint(d, CardProposal(c, n, work, dispositions)), c, work, dispositions, n + 1)
  {
    var p := CardProposal(c, n, work, dispositions);
    if AllHandled(d, c, work, dispositions, n) {
      forall k | 0 <= k < n + 1 && !dispositions[k] ensures Handled(ReviewCards.Mint(d, p), c, c.cards[k], work) {
        if k < n {
          HandledStays(d, p, c, c.cards[k], work);
        } else {
          MintHandles(d, c, n, work, false);
        }
      }
    }
  }
}
