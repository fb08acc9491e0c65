// An author's observed names
// (crates/livrarr-db/src/sqlite_author_link.rs:306-438) and what becomes of
// them when two authors merge (2742-2805).
module AuthorNames {
  import opened Basics
  import opened LinkProgress
  import opened RouteKeys
  import opened Sorting

  type VariantId = int

  datatype NameSource =
    | UserSource | GoodreadsSource | HardcoverSource | GoogleBooksSource | OpenLibrarySource | ReadarrSource
    | ImportSource | LegacySource

  datatype Role = Primary | Alias

  // `ol_role_rank`.
  function RoleRank(r: Option<Role>): nat {
    match r
    case Some(Primary) => 2
    case Some(Alias) => 1
    case None => 0
  }

  // UNIQUE(user_id, author_id, source, canonical_name).
  datatype NameKey = NameKey(user: UserId, author: AuthorId, source: NameSource, canonical: string)

  datatype Variant = Variant(key: NameKey, name: string, role: Option<Role>, selectedAt: Option<Time>)

  type Variants = map<VariantId, Variant>

  ghost predicate UniqueNames(rows: Variants) {
    forall i, j :: i in rows && j in rows && i != j ==> rows[i].key != rows[j].key
  }

  function FindName(rows: Variants, key: NameKey): (r: Option<VariantId>)
    requires UniqueNames(rows)
    ensures r.Some? ==> r.value in rows && rows[r.value].key == key
    ensures r.None? ==> forall i :: i in rows ==> rows[i].key != key
  {
    if i :| i in rows && rows[i].key == key then Some(i) else None
  }

  datatype Names = Names(rows: Variants, nextId: VariantId)

  ghost predicate ValidNames(t: Names) {
    UniqueNames(t.rows) && forall i :: i in t.rows ==> i < t.nextId
  }

  datatype Observation = Observation(source: NameSource, name: string)

  // `insert_name_variant_tx`: an empty or unreadable name is skipped, an
  // existing row stays.
  function Inserted(t: Names, canonicalOf: string -> string, user: UserId, author: AuthorId,
      o: Observation): (t': Names)
    requires ValidNames(t)
    ensures ValidNames(t')
  {
    var name := Trim(o.name);
    var key := NameKey(user, author, o.source, canonicalOf(name));
    if name == "" || key.canonical == "" || FindName(t.rows, key).Some? then t
    else Names(t.rows[t.nextId := Variant(key, name, None, None)], t.nextId + 1)
  }

  function InsertedAll(
      t: Names, canonicalOf: string -> string, user: UserId, author: AuthorId, os: seq<Observation>): (t': Names)
    requires ValidNames(t)
    ensures ValidNames(t')
  {
    if os == [] then t
    else Inserted(InsertedAll(t, canonicalOf, user, author, os[..|os| - 1]), canonicalOf, user, author, os[|os| - 1])
  }

  // `name_source_for_provider`.
  function SourceFor(p: Provider): NameSource {
    match p
    case OpenLibrary => OpenLibrarySource
    case Goodreads => GoodreadsSource
    case Hardcover => HardcoverSource
  }

  // The CASE of `upsert_name_variant_role_tx`.
  function PromotedRole(had: Option<Role>, role: Option<Role>): Option<Role> {
    if role == Some(Primary) then Some(Primary) else if had.None? then role else had
  }

  // `upsert_name_variant_role_tx`: an existing row keeps all but its role.
  function Promoted(
      t: Names, canonicalOf: string -> string, user: UserId, author: AuthorId, o: Observation, role: Option<Role>):
    (t': Names)
    requires ValidNames(t)
    ensures ValidNames(t')
  {
    var name := Trim(o.name);
    var key := NameKey(user, author, o.source, canonicalOf(name));
    if name == "" || key.canonical == "" then t
    else match FindName(t.rows, key)
      case Some(id) => t.(rows := t.rows[id := t.rows[id].(role := PromotedRole(t.rows[id].role, role))])
      case None => Names(t.rows[t.nextId := Variant(key, name, role, None)], t.nextId + 1)
  }

  function PromotedAll(
      t: Names, canonicalOf: string -> string, user: UserId, author: AuthorId, os: seq<Observation>,
      role: Option<Role>): (t': Names)
    requires ValidNames(t)
    ensures ValidNames(t')
  {
    if os == [] then t
    else
      Promoted(PromotedAll(t, canonicalOf, user, author, os[..|os| - 1], role), canonicalOf, user, author,
               os[|os| - 1], role)
  }

  function Observations(source: NameSource, names: seq<string>): (os: seq<Observation>)
    ensures |os| == |names| && forall k :: 0 <= k < |os| ==> os[k] == Observation(source, names[k])
  {
    seq(|names|, k requires 0 <= k < |names| => Observation(source, names[k]))
  }

  function RoleOf(p: Provider, role: Role): Option<Role> {
    if p == OpenLibrary then Some(role) else None
  }

  // The names of a picked record: its own, then its alternates in order.
  function PickedNames(
      t: Names, canonicalOf: string -> string, user: UserId, author: AuthorId, p: Provider, name: string,
      alternates: seq<string>): (t': Names)
    requires ValidNames(t)
    ensures ValidNames(t')
  {
    PromotedAll(
      Promoted(t, canonicalOf, user, author, Observation(SourceFor(p), name), RoleOf(p, Primary)),
      canonicalOf, user, author, Observations(SourceFor(p), alternates), RoleOf(p, Alias))
  }

  class NameTable {
    const leases: ProgressTable
    // `canonical_author_key`; its text rules are not modelled.
    const canonicalOf: string -> string
    var rows: Variants
    var nextId: VariantId

    constructor (leases: ProgressTable, canonicalOf: string -> string)
      ensures this.leases == leases && this.canonicalOf == canonicalOf
      ensures Current() == Names(map[], 1) && ValidNames(Current())
    {
      this.leases, this.canonicalOf := leases, canonicalOf;
      rows, nextId := map[], 1;
    }

    function Current(): Names
      reads this
    {
      Names(rows, nextId)
    }

    method InsertVariant(user: UserId, author: AuthorId, o: Observation) returns (landed: bool)
      requires ValidNames(Current())
      modifies `rows, `nextId
      ensures Current() == Inserted(old(Current()), canonicalOf, user, author, o) && ValidNames(Current())
      ensures landed <==> Current() != old(Current())
      ensures nextId == old(nextId) + (if landed then 1 else 0)
    {
      var name := Trim(o.name);
      var canonical := canonicalOf(name);
      if name == "" || canonical == "" {
        return false;
      }
      var key := NameKey(user, author, o.source, canonical);
      landed := FindName(rows, key).None?;
      if landed {
        rows, nextId := rows[nextId := Variant(key, name, None, None)], nextId + 1;
      }
    }

    method PromoteVariant(user: UserId, author: AuthorId, o: Observation, role: Option<Role>)
      requires ValidNames(Current())
      modifies `rows, `nextId
      ensures Current() == Promoted(old(Current()), canonicalOf, user, author, o, role) && ValidNames(Current())
    {
      var name := Trim(o.name);
      var canonical := canonicalOf(name);
      if name != "" && canonical != "" {
        var key := NameKey(user, author, o.source, canonical);
        match FindName(rows, key) {
          case Some(id) => rows := rows[id := rows[id].(role := PromotedRole(rows[id].role, role))];
          case None => rows, nextId := rows[nextId := Variant(key, name, role, None)], nextId + 1;
        }
      }
    }

    // The last writes of `pick_candidate_as_user`.
    method KeepPickedNames(user: UserId, author: AuthorId, p: Provider, name: string, alternates: seq<string>)
      requires ValidNames(Current())
      modifies `rows, `nextId
      ensures Current() == PickedNames(old(Current()), canonicalOf, user, author, p, name, alternates)
      ensures ValidNames(Current())
    {
      PromoteVariant(user, author, Observation(SourceFor(p), name), RoleOf(p, Primary));
      ghost var before, os := Current(), Observations(SourceFor(p), alternates);
      for n := 0 to |alternates|
        invariant ValidNames(Current())
        invariant Current() == PromotedAll(before, canonicalOf, user, author, os[..n], RoleOf(p, Alias))
      {
        assert os[..n + 1][..n] == os[..n];
        PromoteVariant(user, author, Observation(SourceFor(p), alternates[n]), RoleOf(p, Alias));
      }
      assert os[..|os|] == os;
    }

    // `record_observed_names_tx`: the author wakes exactly when some name was
    // new, and once however many were.
    method RecordObservedNames(user: UserId, author: AuthorId, os: seq<Observation>, now: Time) returns (inserted: nat)
      requires ValidNames(Current())
      modifies `rows, `nextId, leases`rows
      ensures Current() == InsertedAll(old(Current()), canonicalOf, user, author, os) && ValidNames(Current())
      ensures inserted == nextId - old(nextId)
      ensures Links(leases.rows, leases.nextToken)
           == if inserted > 0
              then Step(Links(old(leases.rows), leases.nextToken), Moment(now, Observe(author)))
              else Links(old(leases.rows), leases.nextToken)
    {
      ghost var before := Current();
      inserted := 0;
      for n := 0 to |os|
        invariant ValidNames(Current()) && Current() == InsertedAll(before, canonicalOf, user, author, os[..n])
        invariant inserted == nextId - before.nextId && leases.rows == old(leases.rows)
      {
        assert os[..n + 1][..n] == os[..n];
        var landed := InsertVariant(user, author, os[n]);
        inserted := inserted + (if landed then 1 else 0);
      }
      assert os[..|os|] == os;
      leases.WakeForNames(author, inserted, now);
    }

    // One loser variant of the merge: folded onto the survivor's row of the
    // same name, or moved.
    method FoldOne(survivor: AuthorId, id: VariantId)
      requires UniqueNames(rows) && id in rows && rows[id].key.author != survivor
      modifies `rows
      ensures rows == FoldedName(old(rows), survivor, id) && UniqueNames(rows)
    {
      FoldedNameIsUnique(rows, survivor, id);
      var loser := rows[id];
      match FindName(rows, loser.key.(author := survivor)) {
        case Some(kept) =>
          var row := rows[kept];
          var role := if RoleRank(loser.role) > RoleRank(row.role) then loser.role else row.role;
          rows := rows[kept := row.(role := role,
                                    selectedAt := if row.selectedAt.Some? then row.selectedAt else loser.selectedAt)];
          assert UniqueNames(rows);
          rows := rows - {id};
        case None =>
          rows := rows[id := loser.(key := loser.key.(author := survivor))];
      }
    }

    // The loop over the loser's variants, in id order.
    method FoldNames(user: UserId, survivor: AuthorId, loser: AuthorId)
      requires UniqueNames(rows) && survivor != loser
      modifies `rows
      ensures UniqueNames(rows)
      ensures rows == FoldedNames(old(rows), survivor, NamesOf(old(rows), user, loser))
    {
      var ids := NamesOf(rows, user, loser);
      ghost var before := rows;
      for n := 0 to |ids|
        invariant UniqueNames(rows) && rows == FoldedNames(before, survivor, ids[..n])
      {
        RestWaits(before, user, survivor, loser, n, n);
        FoldedSnoc(before, survivor, ids, n);
        FoldOne(survivor, ids[n]);
      }
      assert ids[..|ids|] == ids;
    }
  }

  // ------------------------------------------------------------------
  // What a pick keeps
  // ------------------------------------------------------------------

  // No name is lost or renamed, no selection dropped, no role weakened.
  ghost predicate Kept(before: Names, after: Names) {
    forall i :: i in before.rows ==>
      && i in after.rows && after.rows[i] == before.rows[i].(role := after.rows[i].role)
      && RoleRank(before.rows[i].role) <= RoleRank(after.rows[i].role)
  }

  // The name is on record for the author, in the role or a stronger one, unless
  // there is nothing to read in it.
  ghost predicate OnRecord(
      t: Names, canonicalOf: string -> string, user: UserId, author: AuthorId, o: Observation, role: Option<Role>)
  {
    var name := Trim(o.name);
    name == "" || canonicalOf(name) == ""
    || exists i :: i in t.rows && t.rows[i].key == NameKey(user, author, o.source, canonicalOf(name))
                   && RoleRank(role) <= RoleRank(t.rows[i].role)
  }

  // Rows that are new belong to the author and the source.
  ghost predicate OnlyFrom(before: Names, after: Names, user: UserId, author: AuthorId, source: NameSource) {
    forall i :: i in after.rows && (i !in before.rows || after.rows[i] != before.rows[i]) ==>
      after.rows[i].key == NameKey(user, author, source, after.rows[i].key.canonical)
  }

  lemma PromotedOne(
      t: Names, canonicalOf: string -> string, user: UserId, author: AuthorId, o: Observation, role: Option<Role>)
    requires ValidNames(t)
    ensures var after := Promoted(t, canonicalOf, user, author, o, role);
            && Kept(t, after) && OnRecord(after, canonicalOf, user, author, o, role)
            && OnlyFrom(t, after, user, author, o.source)
  {
    var name := Trim(o.name);
    var key := NameKey(user, author, o.source, canonicalOf(name));
    var after := Promoted(t, canonicalOf, user, author, o, role);
    if name != "" && key.canonical != "" {
      match FindName(t.rows, key) {
        case Some(id) => assert after.rows[id].key == key;
        case None => assert after.rows[t.nextId].key == key;
      }
    }
  }

  lemma KeptOnward(
      a: Names, b: Names, c: Names, canonicalOf: string -> string, user: UserId, author: AuthorId, o: Observation,
      role: Option<Role>)
    requires Kept(b, c)
    ensures Kept(a, b) ==> Kept(a, c)
    ensures OnRecord(b, canonicalOf, user, author, o, role) ==> OnRecord(c, canonicalOf, user, author, o, role)
  {
    var name := Trim(o.name);
    var key := NameKey(user, author, o.source, canonicalOf(name));
    if i :| i in b.rows && b.rows[i].key == key && RoleRank(role) <= RoleRank(b.rows[i].role) {
      assert c.rows[i].key == key;
    }
  }

  ghost predicate AllOnRecord(
      t: Names, canonicalOf: string -> string, user: UserId, author: AuthorId, os: seq<Observation>,
      role: Option<Role>)
  {
    forall o :: o in os ==> OnRecord(t, canonicalOf, user, author, o, role)
  }

  lemma {:induction false} PromotedEach(
      t: Names, canonicalOf: string -> string, user: UserId, author: AuthorId, os: seq<Observation>,
      role: Option<Role>, source: NameSource)
    requires ValidNames(t) && forall k :: 0 <= k < |os| ==> os[k].source == source
    ensures var after := PromotedAll(t, canonicalOf, user, author, os, role);
            && Kept(t, after) && AllOnRecord(after, canonicalOf, user, author, os, role)
            && OnlyFrom(t, after, user, author, source)
  {
    if os != [] {
      var front, last := os[..|os| - 1], os[|os| - 1];
      var mid, after := PromotedAll(t, canonicalOf, user, author, front, role),
        PromotedAll(t, canonicalOf, user, author, os, role);
      PromotedEach(t, canonicalOf, user, author, front, role, source);
      PromotedOne(mid, canonicalOf, user, author, last, role);
      KeptOnward(t, mid, after, canonicalOf, user, author, last, role);
      forall o | o in os ensures OnRecord(after, canonicalOf, user, author, o, role) {
        if o != last {
          assert o in front;
          KeptOnward(t, mid, after, canonicalOf, user, author, o, role);
        }
      }
    }
  }

  // A pick keeps the whole name set of the record: the name as primary where the
  // provider is OpenLibrary, every alternate at least as alias; no earlier name
  // is lost or weakened, and no other author or source is touched.
  lemma PickedNamesAreKept(
      t: Names, canonicalOf: string -> string, user: UserId, author: AuthorId, p: Provider, name: string,
      alternates: seq<string>)
    requires ValidNames(t)
    ensures var after := PickedNames(t, canonicalOf, user, author, p, name, alternates);
            && Kept(t, after) && OnlyFrom(t, after, user, author, SourceFor(p))
            && OnRecord(after, canonicalOf, user, author, Observation(SourceFor(p), name), RoleOf(p, Primary))
            && AllOnRecord(after, canonicalOf, user, author, Observations(SourceFor(p), alternates), RoleOf(p, Alias))
  {
    var o, os := Observation(SourceFor(p), name), Observations(SourceFor(p), alternates);
    var mid := Promoted(t, canonicalOf, user, author, o, RoleOf(p, Primary));
    PromotedOne(t, canonicalOf, user, author, o, RoleOf(p, Primary));
    PromotedEach(mid, canonicalOf, user, author, os, RoleOf(p, Alias), SourceFor(p));
    KeptOnward(t, mid, PromotedAll(mid, canonicalOf, user, author, os, RoleOf(p, Alias)), canonicalOf, user, author, o,
               RoleOf(p, Primary));
  }

  // ------------------------------------------------------------------
  // Two authors merge
  // ------------------------------------------------------------------

  lemma FoldedSnoc(rows: Variants, survivor: AuthorId, ids: seq<VariantId>, n: nat)
    requires UniqueNames(rows) && n < |ids|
    ensures FoldedNames(rows, survivor, ids[..n + 1]) == FoldedName(FoldedNames(rows, survivor, ids[..n]), survivor,
            ids[n])
  {
    assert ids[..n + 1][..n] == ids[..n];
  }

  const ById: (VariantId, VariantId) -> bool := (i: VariantId, j: VariantId) => i <= j

  function NamesOf(rows: Variants, user: UserId, author: AuthorId): (ids: seq<VariantId>)
    ensures forall i :: i in ids <==> i in rows && rows[i].key.user == user && rows[i].key.author == author
    ensures forall i, j :: 0 <= i < j < |ids| ==> ids[i] != ids[j]
  {
    var mine := set i | i in rows && rows[i].key.user == user && rows[i].key.author == author;
    InOrder(mine, ById)
  }

  function FoldedName(rows: Variants, survivor: AuthorId, id: VariantId): Variants
    requires UniqueNames(rows)
  {
    if id !in rows then rows
    else
      var loser := rows[id];
      match FindName(rows, loser.key.(author := survivor))
      case Some(kept) => rows[kept := Stronger(rows[kept], loser)] - {id}
      case None => rows[id := loser.(key := loser.key.(author := survivor))]
  }

  // The survivor's row of a name both have.
  function Stronger(survivor: Variant, loser: Variant): Variant {
    survivor.(
      role := if RoleRank(loser.role) > RoleRank(survivor.role) then loser.role else survivor.role,
      selectedAt := if survivor.selectedAt.Some? then survivor.selectedAt else loser.selectedAt)
  }

  lemma FoldedNameIsUnique(rows: Variants, survivor: AuthorId, id: VariantId)
    requires UniqueNames(rows)
    ensures UniqueNames(FoldedName(rows, survivor, id))
  {}

  function FoldedNames(rows: Variants, survivor: AuthorId, ids: seq<VariantId>): (r: Variants)
    requires UniqueNames(rows)
    ensures UniqueNames(r)
  {
    if ids == [] then rows
    else
      var front := FoldedNames(rows, survivor, ids[..|ids| - 1]);
      FoldedNameIsUnique(front, survivor, ids[|ids| - 1]);
      FoldedName(front, survivor, ids[|ids| - 1])
  }

  // The row an author has for a name, wherever it is stored.
  function NameAt(rows: Variants, key: NameKey): Option<Variant>
    requires UniqueNames(rows)
  {
    match FindName(rows, key)
    case Some(id) => Some(rows[id])
    case None => None
  }

  // What the survivor has for a name after the merge.
  function United(survivor: Option<Variant>, loser: Option<Variant>, key: NameKey): Option<Variant> {
    match loser
    case None => survivor
    case Some(l) =>
      match survivor
      case None => Some(l.(key := key))
      case Some(s) => Some(Stronger(s, l))
  }

  lemma FoldedNameAt(rows: Variants, survivor: AuthorId, id: VariantId, key: NameKey)
    requires UniqueNames(rows) && id in rows && rows[id].key.author != survivor
    ensures UniqueNames(FoldedName(rows, survivor, id))
    ensures NameAt(FoldedName(rows, survivor, id), key)
         == if key == rows[id].key then None
            else if key == rows[id].key.(author := survivor) then United(NameAt(rows, key), Some(rows[id]), key)
            else NameAt(rows, key)
  {
    FoldedNameIsUnique(rows, survivor, id);
    var after := FoldedName(rows, survivor, id);
    var before, now := FindName(rows, key), FindName(after, key);
    if key == rows[id].key {
      assert forall i :: i in after ==> after[i].key != key;
    } else if key == rows[id].key.(author := survivor) {
      match before {
        case Some(kept) => assert after[kept].key == key;
        case None => assert after[id].key == key;
      }
    } else {
      if before.Some? { assert before.value in after && after[before.value] == rows[before.value]; }
      if now.Some? { assert now.value in rows; }
    }
  }

  // The merge ends with the union of both authors' names: every name either
  // had, under the survivor, with the stronger OpenLibrary role and the
  // survivor's own selection time first; the loser keeps none.
  lemma NamesAreUnited(rows: Variants, user: UserId, survivor: AuthorId, loser: AuthorId, key: NameKey)
    requires UniqueNames(rows) && survivor != loser
    ensures var after := FoldedNames(rows, survivor, NamesOf(rows, user, loser));
            UniqueNames(after) && NameAt(after, key)
            == if key.user != user then NameAt(rows, key)
               else if key.author == loser then None
               else if key.author == survivor then United(NameAt(rows, key), NameAt(rows, key.(author := loser)), key)
               else NameAt(rows, key)
  {
    var ids := NamesOf(rows, user, loser);
    assert ids[..|ids|] == ids;
    NamesReached(rows, user, loser, key);
    NamesReached(rows, user, loser, key.(author := loser));
    PrefixUnited(rows, user, survivor, loser, key, |ids|);
  }

  lemma NamesReached(rows: Variants, user: UserId, loser: AuthorId, key: NameKey)
    requires UniqueNames(rows)
    ensures var ids := NamesOf(rows, user, loser);
            Reached(rows, ids, |ids|, key) <==> key.user == user && key.author == loser && NameAt(rows, key).Some?
  {
    var ids, at := NamesOf(rows, user, loser), FindName(rows, key);
    if key.user == user && key.author == loser && at.Some? {
      assert at.value in ids;
    }
    forall k | 0 <= k < |ids| && ids[k] in rows && rows[ids[k]].key == key
      ensures key.user == user && key.author == loser
    {
      assert ids[k] in ids;
    }
  }

  // The loser's row of this name is among the first n.
  predicate Reached(rows: Variants, ids: seq<VariantId>, n: nat, key: NameKey)
    requires n <= |ids|
  {
    exists k :: 0 <= k < n && ids[k] in rows && rows[ids[k]].key == key
  }

  // The loser's rows whose turn has not come are as they were.
  lemma {:induction false} RestWaits(
      rows: Variants, user: UserId, survivor: AuthorId, loser: AuthorId, n: nat, k: nat)
    requires UniqueNames(rows) && survivor != loser && n <= k < |NamesOf(rows, user, loser)|
    ensures var ids := NamesOf(rows, user, loser);
            var after := FoldedNames(rows, survivor, ids[..n]);
            ids[k] in rows && rows[ids[k]].key.author == loser && ids[k] in after && after[ids[k]] == rows[ids[k]]
  {
    var ids := NamesOf(rows, user, loser);
    assert ids[k] in ids;
    if n > 0 {
      RestWaits(rows, user, survivor, loser, n - 1, k);
      RestWaits(rows, user, survivor, loser, n - 1, n - 1);
      FoldedSnoc(rows, survivor, ids, n - 1);
      OtherRowStays(FoldedNames(rows, survivor, ids[..n - 1]), survivor, ids[n - 1], ids[k]);
    }
  }

  lemma OtherRowStays(rows: Variants, survivor: AuthorId, id: VariantId, other: VariantId)
    requires UniqueNames(rows) && id in rows && other in rows && other != id && rows[other].key.author != survivor
    ensures other in FoldedName(rows, survivor, id) && FoldedName(rows, survivor, id)[other] == rows[other]
  {}

  ghost function UnitedAfter(
      rows: Variants, user: UserId, survivor: AuthorId, loser: AuthorId, key: NameKey, n: nat): Option<Variant>
    requires UniqueNames(rows) && n <= |NamesOf(rows, user, loser)|
  {
    var ids := NamesOf(rows, user, loser);
    if Reached(rows, ids, n, key) then None
    else if key.author == survivor && Reached(rows, ids, n, key.(author := loser))
    then United(NameAt(rows, key), NameAt(rows, key.(author := loser)), key)
    else NameAt(rows, key)
  }

  lemma {:induction false} PrefixUnited(
      rows: Variants, user: UserId, survivor: AuthorId, loser: AuthorId, key: NameKey, n: nat)
    requires UniqueNames(rows) && survivor != loser && n <= |NamesOf(rows, user, loser)|
    ensures NameAt(FoldedNames(rows, survivor, NamesOf(rows, user, loser)[..n]), key)
         == UnitedAfter(rows, user, survivor, loser, key, n)
  {
    var ids := NamesOf(rows, user, loser);
    if n > 0 {
      PrefixUnited(rows, user, survivor, loser, key, n - 1);
      RestWaits(rows, user, survivor, loser, n - 1, n - 1);
      FoldedSnoc(rows, survivor, ids, n - 1);
      FoldedNameAt(FoldedNames(rows, survivor, ids[..n - 1]), survivor, ids[n - 1], key);
      UnitedStep(rows, user, survivor, loser, key, n);
    }
  }

  lemma UnitedStep(rows: Variants, user: UserId, survivor: AuthorId, loser: AuthorId, key: NameKey, n: nat)
    requires UniqueNames(rows) && survivor != loser && 0 < n <= |NamesOf(rows, user, loser)|
    requires NamesOf(rows, user, loser)[n - 1] in rows
    ensures var row := rows[NamesOf(rows, user, loser)[n - 1]];
            UnitedAfter(rows, user, survivor, loser, key, n)
            == if key == row.key then None
               else if key == row.key.(author := survivor)
               then United(UnitedAfter(rows, user, survivor, loser, key, n - 1), Some(row), key)
               else UnitedAfter(rows, user, survivor, loser, key, n - 1)
  {
    var ids := NamesOf(rows, user, loser);
    var id := ids[n - 1];
    assert id in ids;
    ReachedStep(rows, ids, n, key);
    ReachedStep(rows, ids, n, key.(author := loser));
    assert NameAt(rows, rows[id].key) == Some(rows[id]);
    if key == rows[id].key.(author := survivor) {
      assert key.(author := loser) == rows[id].key;
      NotReachedTwice(rows, ids, n, key.(author := loser));
      NotTheirs(rows, user, loser, ids, n - 1, key);
    }
  }

  lemma NotTheirs(rows: Variants, user: UserId, loser: AuthorId, ids: seq<VariantId>, n: nat, key: NameKey)
    requires UniqueNames(rows) && ids == NamesOf(rows, user, loser) && n <= |ids| && key.author != loser
    ensures !Reached(rows, ids, n, key)
  {
    forall k | 0 <= k < n && ids[k] in rows ensures rows[ids[k]].key != key {
      assert ids[k] in ids;
    }
  }

  lemma ReachedStep(rows: Variants, ids: seq<VariantId>, n: nat, key: NameKey)
    requires 0 < n <= |ids|
    ensures Reached(rows, ids, n, key) <==>
              Reached(rows, ids, n - 1, key) || (ids[n - 1] in rows && rows[ids[n - 1]].key == key)
  {}

  lemma NotReachedTwice(rows: Variants, ids: seq<VariantId>, n: nat, key: NameKey)
    requires UniqueNames(rows) && 0 < n <= |ids| && ids[n - 1] in rows && rows[ids[n - 1]].key == key
    requires forall i, j :: 0 <= i < j < |ids| ==> ids[i] != ids[j]
    ensures !Reached(rows, ids, n - 1, key)
  {}
}
