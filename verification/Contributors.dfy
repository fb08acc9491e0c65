// The contributors of one work and their roles
// (crates/livrarr-db/src/identity_layer.rs:3813-3936). The table's primary key
// makes it a map from author to ordinal; its UNIQUE (user_id, work_id, ordinal)
// and its foreign key to the user's authors are what every single statement has
// to respect.
module Contributors {
  import opened Basics
  import opened Sorting

  type AuthorId = int

  const PARKING: int := 1_000_000

  ghost predicate DistinctOrdinals(rows: map<AuthorId, int>) {
    forall a, b :: a in rows && b in rows && a != b ==> rows[a] != rows[b]
  }

  ghost predicate ValidRows(rows: map<AuthorId, int>) {
    DistinctOrdinals(rows) && forall a :: a in rows ==> rows[a] >= 0
  }

  ghost predicate Above(rows: map<AuthorId, int>, a: AuthorId, b: AuthorId) {
    a in rows && b in rows && rows[a] > rows[b]
  }

  ghost predicate Descends(rows: map<AuthorId, int>, authors: seq<AuthorId>) {
    forall i, j :: 0 <= i < j < |authors| ==> Above(rows, authors[i], authors[j])
  }

  // `ORDER BY ordinal DESC` over every row.
  ghost predicate ListsDescending(rows: map<AuthorId, int>, authors: seq<AuthorId>) {
    && (forall a :: a in authors <==> a in rows)
    && Descends(rows, authors)
  }

  predicate Higher(rows: map<AuthorId, int>, a: AuthorId, b: AuthorId) {
    a in rows && b in rows && rows[a] >= rows[b]
  }

  // SELECT ... ORDER BY ordinal DESC.
  function Listing(rows: map<AuthorId, int>): (authors: seq<AuthorId>)
    requires DistinctOrdinals(rows)
    ensures ListsDescending(rows, authors) && |authors| == |rows|
  {
    var le := (a: AuthorId, b: AuthorId) => Higher(rows, a, b);
    var authors := InOrder(rows.Keys, le);
    forall i, j | 0 <= i < j < |authors| ensures Above(rows, authors[i], authors[j]) {
      assert le(authors[i], authors[j]) && authors[i] in authors && authors[j] in authors;
    }
    authors
  }

  function Missing(requested: seq<AuthorId>, existing: seq<AuthorId>): seq<AuthorId> {
    if existing == [] then []
    else
      var front := Missing(requested, existing[..|existing| - 1]);
      var last := existing[|existing| - 1];
      if last in requested || last in front then front else front + [last]
  }

  // The order the rows end in: the request, then everyone it leaves out.
  function FinalOrder(requested: seq<AuthorId>, existing: seq<AuthorId>): seq<AuthorId> {
    requested + Missing(requested, existing)
  }

  // Where an author ends up when an order may name it more than once.
  function LastIndex(order: seq<AuthorId>, a: AuthorId): (k: nat)
    requires a in order
    ensures k < |order| && order[k] == a
    ensures forall j :: k < j < |order| ==> order[j] != a
  {
    if order[|order| - 1] == a then |order| - 1 else LastIndex(order[..|order| - 1], a)
  }

  function Numbered(order: seq<AuthorId>): map<AuthorId, int> {
    map a | a in order :: LastIndex(order, a)
  }

  // Step k hands ordinal k to order[k]; only a row still parked at exactly k
  // can be in its way.
  ghost predicate NoClash(rows: map<AuthorId, int>, order: seq<AuthorId>, k: nat)
    requires k < |order|
  {
    forall a :: a in rows && a !in order[..k + 1] ==> rows[a] + PARKING != k
  }

  // No upsert of the numbering is refused.
  ghost predicate Fits(rows: map<AuthorId, int>, order: seq<AuthorId>, k: nat, authors: set<AuthorId>)
    requires k < |order|
  {
    order[k] in authors && NoClash(rows, order, k)
  }

  ghost predicate AllFit(rows: map<AuthorId, int>, order: seq<AuthorId>, authors: set<AuthorId>) {
    forall k: nat :: k < |order| ==> Fits(rows, order, k, authors)
  }

  datatype Role = Role(value: string, provenance: string)

  // `WorkContributor`, as a command asks for it.
  datatype Request = Request(author: AuthorId, ordinal: nat, roles: seq<Role>)

  // PRIMARY KEY (user_id, work_id, author_id, role, provenance): the first
  // observation of a role stays, so the key is all there is to keep.
  datatype Staff = Staff(rows: map<AuthorId, int>, roles: set<(AuthorId, Role)>)

  const NOBODY := Staff(map[], {})

  ghost predicate ValidStaff(s: Staff, authors: set<AuthorId>) {
    ValidRows(s.rows) && s.rows.Keys <= authors && forall r :: r in s.roles ==> r.0 in s.rows
  }

  function AuthorsOf(requested: seq<Request>): (r: seq<AuthorId>)
    ensures |r| == |requested| && forall k :: 0 <= k < |r| ==> r[k] == requested[k].author
  {
    seq(|requested|, k requires 0 <= k < |requested| => requested[k].author)
  }

  function OrderOf(rows: map<AuthorId, int>, requested: seq<Request>): seq<AuthorId>
    requires DistinctOrdinals(rows)
  {
    FinalOrder(AuthorsOf(requested), Listing(rows))
  }

  // Every requested author exists, and no upsert meets a parked ordinal.
  ghost predicate CanMerge(rows: map<AuthorId, int>, authors: set<AuthorId>, requested: seq<Request>)
    requires DistinctOrdinals(rows)
  {
    && (forall k :: 0 <= k < |requested| ==> requested[k].author in authors)
    && forall k: nat :: k < |OrderOf(rows, requested)| ==> NoClash(rows, OrderOf(rows, requested), k)
  }

  function MergedRows(rows: map<AuthorId, int>, requested: seq<Request>): map<AuthorId, int>
    requires DistinctOrdinals(rows)
  {
    Numbered(OrderOf(rows, requested))
  }

  function RolesOf(r: Request): set<(AuthorId, Role)> {
    set k | 0 <= k < |r.roles| :: (r.author, r.roles[k])
  }

  function RequestedRoles(requested: seq<Request>): set<(AuthorId, Role)> {
    if requested == [] then {}
    else RequestedRoles(requested[..|requested| - 1]) + RolesOf(requested[|requested| - 1])
  }

  function MergedStaff(s: Staff, requested: seq<Request>): Staff
    requires DistinctOrdinals(s.rows)
  {
    Staff(MergedRows(s.rows, requested), s.roles + RequestedRoles(requested))
  }

  // ORDER BY ordinal LIMIT 1.
  function PrimaryOf(rows: map<AuthorId, int>): (p: AuthorId)
    requires DistinctOrdinals(rows) && rows != map[]
    ensures IsPrimary(rows, p)
  {
    var listed := Listing(rows);
    assert listed[|listed| - 1] in listed;
    forall a | a in rows && a != listed[|listed| - 1] ensures rows[listed[|listed| - 1]] < rows[a] {
      var k :| 0 <= k < |listed| && listed[k] == a;
      assert Above(rows, listed[k], listed[|listed| - 1]);
    }
    listed[|listed| - 1]
  }

  function WithPrimary(s: Staff, author: AuthorId): Staff
    requires DistinctOrdinals(s.rows)
  {
    if s.rows == map[] then s.(rows := map[author := 0])
    else
      var p := PrimaryOf(s.rows);
      if p == author then s
      else Staff((s.rows - {p})[author := s.rows[p]], set r | r in s.roles && r.0 != p)
  }

  class WorkContributors {
    var rows: map<AuthorId, int>
    var roles: set<(AuthorId, Role)>
    // The authors of the user, for the foreign key.
    const authors: set<AuthorId>

    constructor (s: Staff, authors: set<AuthorId>)
      ensures Current() == s && this.authors == authors
    {
      rows, roles, this.authors := s.rows, s.roles, authors;
    }

    function Current(): Staff
      reads this
    {
      Staff(rows, roles)
    }

    // One UPDATE or upsert of a single ordinal; it fails when another row has
    // that ordinal, and on an author who does not exist.
    method SetOrdinal(author: AuthorId, ordinal: int) returns (ok: bool)
      requires rows.Keys <= authors
      modifies `rows
      ensures ok <==> author in authors && forall a :: a in old(rows) && a != author ==> old(rows)[a] != ordinal
      ensures rows == if ok then old(rows)[author := ordinal] else old(rows)
      ensures ok && DistinctOrdinals(old(rows)) ==> DistinctOrdinals(rows)
    {
      ok := author in authors && forall a :: a in rows.Keys ==> a == author || rows[a] != ordinal;
      if ok {
        rows := rows[author := ordinal];
      }
    }

    // Every existing row moves out of the way, highest ordinal first, so no
    // statement of this phase can meet a taken ordinal.
    method Park(existing: seq<AuthorId>)
      requires ValidRows(rows) && ListsDescending(rows, existing) && rows.Keys <= authors
      modifies `rows
      ensures rows.Keys == old(rows).Keys && ValidRows(rows)
      ensures forall a :: a in rows ==> rows[a] == old(rows)[a] + PARKING
    {
      for i := 0 to |existing|
        invariant rows.Keys == old(rows).Keys && ValidRows(rows)
        invariant forall a :: a in rows ==>
                    rows[a] == old(rows)[a] + (if a in existing[..i] then PARKING else 0)
      {
        assert existing[i] !in existing[..i];
        assert forall a :: a in existing[..i + 1] <==> a in existing[..i] || a == existing[i];
        forall a | a in rows && a != existing[i] ensures rows[a] != rows[existing[i]] + PARKING {
          var j :| 0 <= j < |existing| && existing[j] == a;
          assert a in existing[..i] <==> j < i;
          assert j < i ==> Above(old(rows), existing[j], existing[i]);
          assert i < j ==> Above(old(rows), existing[i], existing[j]);
        }
        var ok := SetOrdinal(existing[i], rows[existing[i]] + PARKING);
      }
      assert existing[..|existing|] == existing;
    }

    // One upsert; an equal ordinal of another author refuses it, and an author
    // who does not exist.
    method RenumberOne(order: seq<AuthorId>, k: nat, ghost before: map<AuthorId, int>) returns (ok: bool)
      requires k < |order| && ValidRows(rows) && Renumbered(rows, before, order[..k]) && rows.Keys <= authors
      modifies `rows
      ensures ok <==> Fits(before, order, k, authors)
      ensures ok ==> ValidRows(rows) && Renumbered(rows, before, order[..k + 1]) && rows.Keys <= authors
    {
      RenumberStep(rows, before, order, k);
      ok := SetOrdinal(order[k], k);
    }

    // The upserts of ordinals 0, 1, ... over the parked rows.
    method Renumber(order: seq<AuthorId>, ghost before: map<AuthorId, int>) returns (ok: bool)
      requires ValidRows(before) && rows.Keys == before.Keys <= authors && ValidRows(rows)
      requires forall a :: a in before ==> rows[a] == before[a] + PARKING
      modifies `rows
      ensures ok <==> AllFit(before, order, authors)
      ensures ok ==> ValidRows(rows) && Renumbered(rows, before, order)
    {
      for k := 0 to |order|
        invariant ValidRows(rows) && Renumbered(rows, before, order[..k]) && rows.Keys <= authors
        invariant forall j: nat :: j < k ==> Fits(before, order, j, authors)
      {
        ok := RenumberOne(order, k, before);
        if !ok {
          return;
        }
      }
      assert order[..|order|] == order;
      ok := true;
    }

    // `merge_contributors`. A refused statement rolls the transaction back.
    method Merge(requested: seq<Request>) returns (ok: bool)
      requires ValidStaff(Current(), authors)
      modifies this
      ensures ok <==> CanMerge(old(rows), authors, requested)
      ensures Current() == if ok then MergedStaff(old(Current()), requested) else old(Current())
      ensures ValidStaff(Current(), authors)
    {
      ghost var before := Current();
      ok := MergeRows(requested);
      if ok {
        AddRoles(requested);
        MergedIsValid(before, authors, requested);
      }
    }

    method AddRoles(requested: seq<Request>)
      modifies `roles
      ensures roles == old(roles) + RequestedRoles(requested)
    {
      for n := 0 to |requested|
        invariant roles == old(roles) + RequestedRoles(requested[..n])
      {
        assert requested[..n + 1][..n] == requested[..n];
        roles := roles + RolesOf(requested[n]);
      }
      assert requested[..|requested|] == requested;
    }

    // The ordinals: park, then number.
    method MergeRows(requested: seq<Request>) returns (ok: bool)
      requires ValidRows(rows) && rows.Keys <= authors
      modifies `rows
      ensures ok <==> CanMerge(old(rows), authors, requested)
      ensures rows == if ok then MergedRows(old(rows), requested) else old(rows)
    {
      var listed, named := Listing(rows), AuthorsOf(requested);
      var order := Append(named, listed);
      MissingCovers(named, listed);
      KnownOrder(rows, authors, requested);
      ok := ParkAndNumber(listed, order);
    }

    method ParkAndNumber(listed: seq<AuthorId>, order: seq<AuthorId>) returns (ok: bool)
      requires ValidRows(rows) && rows.Keys <= authors && ListsDescending(rows, listed)
      requires forall a :: a in listed ==> a in order
      modifies `rows
      ensures ok <==> AllFit(old(rows), order, authors)
      ensures rows == if ok then Numbered(order) else old(rows)
    {
      var before := rows;
      Park(listed);
      ok := Renumber(order, before);
      if ok {
        AllRenumbered(rows, before, order);
      } else {
        rows := before;
      }
    }

    // Those who are there already follow the requested ones.
    method Append(named: seq<AuthorId>, listed: seq<AuthorId>) returns (order: seq<AuthorId>)
      ensures order == FinalOrder(named, listed)
    {
      order := named;
      for i := 0 to |listed|
        invariant order == named + Missing(named, listed[..i])
      {
        assert listed[..i + 1][..i] == listed[..i];
        if listed[i] !in order {
          order := order + [listed[i]];
        }
      }
      assert listed[..|listed|] == listed;
    }

    // `set_primary_contributor`, for an author that exists.
    method SetPrimary(author: AuthorId)
      requires ValidStaff(Current(), authors) && author in authors
      modifies this
      ensures Current() == WithPrimary(old(Current()), author) && ValidStaff(Current(), authors)
    {
      var ordinal := 0;
      if rows != map[] {
        var current := PrimaryOf(rows);
        if current == author {
          return;
        }
        PrimaryReplaced(Current(), current, authors, author);
        ordinal := rows[current];
        rows, roles := rows - {current}, set r | r in roles && r.0 != current;
      }
      var ok := SetOrdinal(author, ordinal);
    }
  }

  lemma KnownOrder(rows: map<AuthorId, int>, authors: set<AuthorId>, requested: seq<Request>)
    requires DistinctOrdinals(rows) && rows.Keys <= authors
    ensures AllFit(rows, OrderOf(rows, requested), authors) <==> CanMerge(rows, authors, requested)
    ensures (forall k :: 0 <= k < |requested| ==> requested[k].author in authors) ==>
              forall a :: a in OrderOf(rows, requested) ==> a in authors
  {
    var named, order := AuthorsOf(requested), OrderOf(rows, requested);
    MissingCovers(named, Listing(rows));
    if AllFit(rows, order, authors) {
      forall k | 0 <= k < |requested| ensures requested[k].author in authors {
        assert order[k] == requested[k].author && Fits(rows, order, k, authors);
      }
      forall k: nat | k < |order| ensures NoClash(rows, order, k) {
        assert Fits(rows, order, k, authors);
      }
    }
    if forall k :: 0 <= k < |requested| ==> requested[k].author in authors {
      forall a | a in order ensures a in authors {
        if a in named {
          var i :| 0 <= i < |named| && named[i] == a;
          assert requested[i].author == a;
        }
      }
      assert forall k: nat :: k < |order| ==> order[k] in order;
    }
  }

  lemma MergedIsValid(s: Staff, authors: set<AuthorId>, requested: seq<Request>)
    requires ValidStaff(s, authors) && forall k :: 0 <= k < |requested| ==> requested[k].author in authors
    ensures ValidStaff(MergedStaff(s, requested), authors)
  {
    var order, after := OrderOf(s.rows, requested), MergedStaff(s, requested);
    KnownOrder(s.rows, authors, requested);
    MissingCovers(AuthorsOf(requested), Listing(s.rows));
    RolesAreRequested(requested);
    forall r | r in after.roles ensures r.0 in after.rows {
      if r in RequestedRoles(requested) {
        assert r.0 in AuthorsOf(requested);
      }
    }
  }

  lemma {:induction false} RolesAreRequested(requested: seq<Request>)
    ensures forall r :: r in RequestedRoles(requested) <==>
              exists k :: 0 <= k < |requested| && r.0 == requested[k].author && r.1 in requested[k].roles
  {
    if requested != [] {
      var front, last := requested[..|requested| - 1], requested[|requested| - 1];
      RolesAreRequested(front);
      forall r ensures r in RequestedRoles(requested) <==>
                 exists k :: 0 <= k < |requested| && r.0 == requested[k].author && r.1 in requested[k].roles
      {
        if r in RequestedRoles(front) {
          var k :| 0 <= k < |front| && r.0 == front[k].author && r.1 in front[k].roles;
          assert r.0 == requested[k].author && r.1 in requested[k].roles;
        }
        if k :| 0 <= k < |requested| && r.0 == requested[k].author && r.1 in requested[k].roles && k < |front| {
          assert r.0 == front[k].author && r.1 in front[k].roles;
        }
      }
    }
  }

  // The rows once `done` has been handed out over the parked rows.
  ghost predicate Renumbered(rows: map<AuthorId, int>, before: map<AuthorId, int>, done: seq<AuthorId>) {
    && (forall a :: a in rows <==> (a in before || a in done))
    && (forall a :: a in done ==> rows[a] == LastIndex(done, a))
    && (forall a :: a in before && a !in done ==> rows[a] == before[a] + PARKING)
  }

  lemma AllRenumbered(rows: map<AuthorId, int>, before: map<AuthorId, int>, order: seq<AuthorId>)
    requires Renumbered(rows, before, order) && forall a :: a in before ==> a in order
    ensures rows == Numbered(order)
  {
    assert forall a :: a in rows <==> a in order;
  }

  lemma RenumberStep(rows: map<AuthorId, int>, before: map<AuthorId, int>, order: seq<AuthorId>, k: nat)
    requires k < |order| && Renumbered(rows, before, order[..k])
    ensures NoClash(before, order, k) <==> forall a :: a in rows && a != order[k] ==> rows[a] != k
    ensures Renumbered(rows[order[k] := k], before, order[..k + 1])
  {
    var done, next := order[..k], order[..k + 1];
    assert next == done + [order[k]] && next[..k] == done;
    assert forall a :: a in next <==> a in done || a == order[k];
    forall a | a in rows && a != order[k]
      ensures rows[a] == k <==> a in before && a !in next && before[a] + PARKING == k
    {}
  }

  ghost predicate IsPrimary(rows: map<AuthorId, int>, p: AuthorId) {
    p in rows && forall a :: a in rows && a != p ==> rows[p] < rows[a]
  }

  lemma {:induction false} MissingCovers(requested: seq<AuthorId>, existing: seq<AuthorId>)
    ensures forall a :: a in FinalOrder(requested, existing) <==> a in requested || a in existing
    ensures forall a :: a in Missing(requested, existing) ==> a in existing && a !in requested
    ensures forall i, j :: 0 <= i < j < |Missing(requested, existing)| ==>
              Missing(requested, existing)[i] != Missing(requested, existing)[j]
  {
    if existing != [] {
      var front, last := existing[..|existing| - 1], existing[|existing| - 1];
      MissingCovers(requested, front);
      assert forall a :: a in existing <==> a in front || a == last;
      var m := Missing(requested, front);
      assert forall a :: a in requested + m <==> a in requested || a in m;
      assert forall a :: a in requested + (m + [last]) <==> a in requested || a in m || a == last;
    }
  }

  // Those the request leaves out keep the listed order among themselves.
  lemma {:induction false} MissingDescends(rows: map<AuthorId, int>, requested: seq<AuthorId>, existing: seq<AuthorId>)
    requires Descends(rows, existing)
    ensures Descends(rows, Missing(requested, existing))
  {
    MissingCovers(requested, existing);
    if existing != [] {
      var front, last := existing[..|existing| - 1], existing[|existing| - 1];
      MissingDescends(rows, requested, front);
      MissingCovers(requested, front);
      var m := Missing(requested, front);
      forall i | 0 <= i < |m| ensures Above(rows, m[i], last) {
        var a := m[i];
        assert a in m;
        assert a in front;
        var j :| 0 <= j < |front| && front[j] == a;
        assert Above(rows, existing[j], existing[|existing| - 1]);
      }
    }
  }

  predicate NamedLater(named: seq<AuthorId>, i: nat)
    requires i < |named|
  {
    exists j :: i < j < |named| && named[j] == named[i]
  }

  // The first position whose author is not named again later.
  function FirstFinal(named: seq<AuthorId>): (k: nat)
    requires named != []
    ensures k < |named| && !NamedLater(named, k) && forall i :: 0 <= i < k ==> NamedLater(named, i)
  {
    FirstFinalFrom(named, 0)
  }

  function FirstFinalFrom(named: seq<AuthorId>, from: nat): (k: nat)
    requires from < |named| && forall i :: 0 <= i < from ==> NamedLater(named, i)
    ensures k < |named| && !NamedLater(named, k) && forall i :: 0 <= i < k ==> NamedLater(named, i)
    decreases |named| - from
  {
    if NamedLater(named, from) then FirstFinalFrom(named, from + 1) else from
  }

  lemma LastIs(order: seq<AuthorId>, a: AuthorId, k: nat)
    requires k < |order| && order[k] == a && forall j :: k < j < |order| ==> order[j] != a
    ensures LastIndex(order, a) == k
  {}

  lemma FinalIndex(named: seq<AuthorId>, missing: seq<AuthorId>, k: nat)
    requires k < |named| && !NamedLater(named, k) && forall a :: a in missing ==> a !in named
    ensures LastIndex(named + missing, named[k]) == k
  {
    var order := named + missing;
    forall j | k < j < |order| ensures order[j] != named[k] {
      if j >= |named| {
        assert order[j] in missing;
      }
    }
    LastIs(order, named[k], k);
  }

  lemma NotBefore(named: seq<AuthorId>, missing: seq<AuthorId>, k: nat, a: AuthorId)
    requires k < |named| && (forall i :: 0 <= i < k ==> NamedLater(named, i))
    requires a in named + missing && a != named[k]
    ensures LastIndex(named + missing, a) > k
  {
    var order, l := named + missing, LastIndex(named + missing, a);
    if l < k {
      NamedAgain(named, missing, l);
    }
  }

  lemma NamedAgain(named: seq<AuthorId>, missing: seq<AuthorId>, i: nat)
    requires i < |named| && NamedLater(named, i)
    ensures exists j :: i < j < |named + missing| && (named + missing)[j] == (named + missing)[i]
  {
    var j :| i < j < |named| && named[j] == named[i];
    assert (named + missing)[j] == (named + missing)[i];
  }

  // A repeated author is upserted again and ends at its last position, so the
  // primary is the first author of the request that is not repeated later.
  lemma FinalIsPrimary(s: Staff, requested: seq<Request>)
    requires DistinctOrdinals(s.rows) && requested != []
    ensures var after := MergedStaff(s, requested).rows;
            after != map[] && DistinctOrdinals(after)
            && PrimaryOf(after) == requested[FirstFinal(AuthorsOf(requested))].author
  {
    var named, missing := AuthorsOf(requested), Missing(AuthorsOf(requested), Listing(s.rows));
    MissingCovers(named, Listing(s.rows));
    FinalIsFirst(named, missing);
  }

  lemma FinalIsFirst(named: seq<AuthorId>, missing: seq<AuthorId>)
    requires named != [] && forall a :: a in missing ==> a !in named
    ensures var after := Numbered(named + missing);
            after != map[] && DistinctOrdinals(after) && PrimaryOf(after) == named[FirstFinal(named)]
  {
    var order, k := named + missing, FirstFinal(named);
    NumberedApart(order);
    FinalIndex(named, missing, k);
    assert order[k] == named[k];
    forall a | a in order && a != named[k] ensures LastIndex(order, a) > k {
      NotBefore(named, missing, k, a);
    }
    OnePrimary(Numbered(order), named[k]);
  }

  lemma FirstFinalOfDistinct(requested: seq<Request>)
    requires DistinctRequest(requested) && requested != []
    ensures FirstFinal(AuthorsOf(requested)) == 0
  {
    var named := AuthorsOf(requested);
    assert forall j :: 0 < j < |named| ==> requested[j].author != requested[0].author;
    assert !NamedLater(named, 0);
  }

  lemma ReplacedIsPrimary(s: Staff, authors: set<AuthorId>, author: AuthorId)
    requires ValidStaff(s, authors) && author in authors
    ensures var after := WithPrimary(s, author).rows;
            after != map[] && DistinctOrdinals(after) && PrimaryOf(after) == author
  {
    OnlyPrimaryChanges(s, authors, author);
  }

  // Beyond a million positions a request can clash: the one contributor, parked
  // at a million, stands where the request's last author is to go.
  lemma HugeRequestClashes(requested: seq<Request>, authors: set<AuthorId>)
    requires |requested| == PARKING + 1 && forall k :: 0 <= k < |requested| ==> requested[k].author == k
    ensures DistinctRequest(requested) && ValidRows(map[-1 := 0])
    ensures !CanMerge(map[-1 := 0], authors, requested)
  {
    var rows: map<AuthorId, int> := map[-1 := 0];
    var order := OrderOf(rows, requested);
    assert -1 !in order[..PARKING + 1];
    assert !NoClash(rows, order, PARKING);
  }

  // The primary and nobody else makes room, and the author of the edit takes its
  // ordinal; every other ordinal and role stays, apart from the author's own.
  lemma OnlyPrimaryChanges(s: Staff, authors: set<AuthorId>, author: AuthorId)
    requires ValidStaff(s, authors) && author in authors
    ensures var after := WithPrimary(s, author);
            && ValidStaff(after, authors) && IsPrimary(after.rows, author)
            && (s.rows == map[] ==> after.rows == map[author := 0])
            && (forall a :: a in s.rows && a != author && !IsPrimary(s.rows, a) ==>
                  a in after.rows && after.rows[a] == s.rows[a])
            && (forall a :: a in after.rows && a != author ==> a in s.rows)
            && forall r :: r in s.roles && !IsPrimary(s.rows, r.0) ==> r in after.roles
  {
    if s.rows != map[] {
      var p := PrimaryOf(s.rows);
      OnePrimary(s.rows, p);
      if p != author {
        PrimaryReplaced(s, p, authors, author);
      }
    }
  }

  lemma PrimaryReplaced(s: Staff, p: AuthorId, authors: set<AuthorId>, author: AuthorId)
    requires ValidStaff(s, authors) && author in authors && IsPrimary(s.rows, p) && p != author
    ensures var after := Staff((s.rows - {p})[author := s.rows[p]], set r | r in s.roles && r.0 != p);
            && ValidStaff(after, authors) && IsPrimary(after.rows, author)
            && (forall a :: a in s.rows && a != author && a != p ==> a in after.rows && after.rows[a] == s.rows[a])
            && (forall a :: a in after.rows && a != author ==> a in s.rows)
            && forall r :: r in s.roles && r.0 != p ==> r in after.roles
  {}

  lemma OnePrimary(rows: map<AuthorId, int>, p: AuthorId)
    requires IsPrimary(rows, p)
    ensures forall a :: IsPrimary(rows, a) ==> a == p
  {}

  // A million contributors or fewer never clash, whatever the request repeats.
  lemma SmallNeverClashes(rows: map<AuthorId, int>, order: seq<AuthorId>)
    requires ValidRows(rows) && |order| <= PARKING
    ensures forall k: nat :: k < |order| ==> NoClash(rows, order, k)
  {}

  lemma OrderIsDistinct(requested: seq<AuthorId>, existing: seq<AuthorId>)
    requires forall i, j :: 0 <= i < j < |requested| ==> requested[i] != requested[j]
    ensures forall i, j :: 0 <= i < j < |FinalOrder(requested, existing)| ==>
              FinalOrder(requested, existing)[i] != FinalOrder(requested, existing)[j]
  {
    MissingCovers(requested, existing);
    var m := Missing(requested, existing);
    assert forall i :: 0 <= i < |m| ==> m[i] !in requested;
  }

  ghost predicate DistinctRequest(requested: seq<Request>) {
    forall i, j :: 0 <= i < j < |requested| ==> requested[i].author != requested[j].author
  }

  // Whatever the request repeats, nobody and no role is lost and no ordinal is
  // given twice. A requested author ends at its last position in the request,
  // the others follow by descending old ordinal, and the ordinals are exactly
  // 0..n-1 if and only if the request repeats nobody.
  lemma RequestIsNumbered(s: Staff, requested: seq<Request>)
    requires DistinctOrdinals(s.rows)
    ensures var after, named := MergedStaff(s, requested).rows, AuthorsOf(requested);
            && (forall a :: a in after <==> a in s.rows || a in named)
            && (forall i :: 0 <= i < |requested| && !NamedLater(named, i) ==> after[named[i]] == i)
            && (forall a, b :: a !in named && b !in named && Above(s.rows, a, b) ==>
                  |requested| <= after[a] < after[b])
            && DistinctOrdinals(after)
            && ((forall a :: a in after ==> 0 <= after[a] < |after|) <==> DistinctRequest(requested))
    ensures forall r :: r in MergedStaff(s, requested).roles <==>
              r in s.roles
              || exists k :: 0 <= k < |requested| && r.0 == requested[k].author && r.1 in requested[k].roles
  {
    var named, existing, after := AuthorsOf(requested), Listing(s.rows), MergedRows(s.rows, requested);
    var missing, order := Missing(named, existing), FinalOrder(named, existing);
    MissingCovers(named, existing);
    RolesAreRequested(requested);
    NumberedApart(order);
    forall i | 0 <= i < |requested| && !NamedLater(named, i) ensures after[named[i]] == i {
      FinalIndex(named, missing, i);
    }
    forall a, b | a !in named && b !in named && Above(s.rows, a, b)
      ensures |requested| <= after[a] < after[b]
    {
      LeftOutOrder(s.rows, named, existing, a, b);
    }
    GaplessIff(s, requested);
  }

  // Whoever ends at an ordinal is the one listed there.
  lemma NumberedApart(order: seq<AuthorId>)
    ensures DistinctOrdinals(Numbered(order))
  {
    var after := Numbered(order);
    assert forall a :: a in after ==> order[after[a]] == a;
  }

  lemma GaplessIff(s: Staff, requested: seq<Request>)
    requires DistinctOrdinals(s.rows)
    ensures var after := MergedStaff(s, requested).rows;
            (forall a :: a in after ==> 0 <= after[a] < |after|) <==> DistinctRequest(requested)
  {
    var named, existing, after := AuthorsOf(requested), Listing(s.rows), MergedRows(s.rows, requested);
    var order := FinalOrder(named, existing);
    MissingCovers(named, existing);
    if DistinctRequest(requested) {
      OrderIsDistinct(named, existing);
      DistinctSize(order, after.Keys);
    } else {
      var i, j :| 0 <= i < j < |requested| && requested[i].author == requested[j].author;
      assert order[i] == named[i] && order[j] == named[j];
      RepeatShrinks(order, i, j);
      assert after.Keys == Members(order);
      var last := order[|order| - 1];
      assert last in order && after[last] == |order| - 1;
    }
  }

  function Members(order: seq<AuthorId>): set<AuthorId> {
    set a | a in order
  }

  lemma MembersSnoc(front: seq<AuthorId>, last: AuthorId)
    ensures Members(front + [last]) == Members(front) + {last}
  {}

  lemma {:induction false} RepeatShrinks(order: seq<AuthorId>, i: nat, j: nat)
    requires i < j < |order| && order[i] == order[j]
    ensures |Members(order)| < |order|
  {
    var front, last := order[..|order| - 1], order[|order| - 1];
    assert order == front + [last];
    MembersSnoc(front, last);
    if j == |order| - 1 {
      assert front[i] == last;
      NoLarger(front);
    } else {
      RepeatShrinks(front, i, j);
    }
  }

  lemma {:induction false} NoLarger(order: seq<AuthorId>)
    ensures |Members(order)| <= |order|
  {
    if order != [] {
      var front, last := order[..|order| - 1], order[|order| - 1];
      assert order == front + [last];
      MembersSnoc(front, last);
      NoLarger(front);
    }
  }

  lemma PairNumbered()
    ensures Numbered([5, 6]) == map[5 := 0, 6 := 1] && Numbered([5, 6, 5]) == map[5 := 2, 6 := 1]
  {
    LastIs([5, 6], 5, 0);
    LastIs([5, 6, 5], 6, 1);
  }

  lemma LeftOutOrder(
      rows: map<AuthorId, int>, requested: seq<AuthorId>, existing: seq<AuthorId>, a: AuthorId, b: AuthorId)
    requires ListsDescending(rows, existing)
    requires a !in requested && b !in requested && Above(rows, a, b)
    ensures a in FinalOrder(requested, existing) && b in FinalOrder(requested, existing)
    ensures |requested| <= LastIndex(FinalOrder(requested, existing), a) < LastIndex(FinalOrder(requested, existing), b)
  {
    MissingCovers(requested, existing);
    MissingDescends(rows, requested, existing);
    var order, m := FinalOrder(requested, existing), Missing(requested, existing);
    var i, j := LastIndex(order, a), LastIndex(order, b);
    assert m[i - |requested|] == a && m[j - |requested|] == b;
    assert !Above(rows, m[j - |requested|], m[i - |requested|]);
  }

  lemma {:induction false} DistinctSize(order: seq<AuthorId>, s: set<AuthorId>)
    requires forall i, j :: 0 <= i < j < |order| ==> order[i] != order[j]
    requires forall a :: a in s <==> a in order
    ensures |s| == |order|
  {
    if order == [] {
      assert forall a :: a !in s;
      assert s == {};
    } else {
      var last := order[|order| - 1];
      assert forall a :: a in s - {last} <==> a in order[..|order| - 1];
      DistinctSize(order[..|order| - 1], s - {last});
    }
  }
}
