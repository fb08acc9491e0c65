// An author's evidence fingerprint over its settled works
// (crates/livrarr-db/src/sqlite_author_link.rs:699-739, 778-824).
module Fingerprint {
  import opened Basics
  import opened Fnv
  import opened RouteKeys
  import opened Sorting
  import Decimal
  import LinkCodec
  import Utf8

  // One row of the settled-work query; `id` is the primary key of `works`.
  datatype SettledRow = SettledRow(
    id: int, status: string, olKey: Option<string>, grKey: Option<string>, hcKey: Option<string>)

  type ProviderKey = (Provider, string)

  datatype SettledTuple = SettledTuple(workId: int, status: string, keys: seq<ProviderKey>)

  function Tag(p: Provider): string {
    match p
    case OpenLibrary => "open_library"
    case Goodreads => "goodreads"
    case Hardcover => "hardcover"
  }

  predicate KeyLe(a: ProviderKey, b: ProviderKey) {
    if Tag(a.0) == Tag(b.0) then TextLe(a.1, b.1) else TextLe(Tag(a.0), Tag(b.0))
  }

  predicate TupleLe(a: SettledTuple, b: SettledTuple) {
    if a.workId == b.workId then TextLe(a.status, b.status) else a.workId <= b.workId
  }

  // A column's trimmed key, absent when nothing is left.
  function Present(p: Provider, raw: Option<string>): seq<ProviderKey> {
    match raw
    case None => []
    case Some(v) => if Trim(v) == "" then [] else [(p, Trim(v))]
  }

  function KeysOf(row: SettledRow): seq<ProviderKey> {
    Present(OpenLibrary, row.olKey) + Present(Goodreads, row.grKey) + Present(Hardcover, row.hcKey)
  }

  function TupleOf(row: SettledRow): SettledTuple {
    SettledTuple(row.id, row.status, Sort(KeysOf(row), KeyLe))
  }

  function Tuples(rows: seq<SettledRow>): seq<SettledTuple> {
    if rows == [] then [] else Tuples(rows[..|rows| - 1]) + [TupleOf(rows[|rows| - 1])]
  }

  function KeyCount(rows: seq<SettledRow>): nat {
    if rows == [] then 0 else KeyCount(rows[..|rows| - 1]) + |KeysOf(rows[|rows| - 1])|
  }

  function Canonical(rows: seq<SettledRow>): seq<SettledTuple> {
    Sort(Tuples(rows), TupleLe)
  }

  // What the fingerprint is about, with row order and key order forgotten.
  ghost function Evidence(rows: seq<SettledRow>): set<(int, string, set<ProviderKey>)> {
    set i | 0 <= i < |rows| :: (rows[i].id, rows[i].status, set k | k in KeysOf(rows[i]))
  }

  ghost predicate DistinctIds(rows: seq<SettledRow>) {
    forall i, j :: 0 <= i < j < |rows| ==> rows[i].id != rows[j].id
  }

  // The column loop of one row.
  method ProviderKeys(row: SettledRow) returns (keys: seq<ProviderKey>)
    ensures keys == KeysOf(row)
  {
    var columns := [(OpenLibrary, row.olKey), (Goodreads, row.grKey), (Hardcover, row.hcKey)];
    keys := [];
    for c := 0 to 3
      invariant keys == (if c > 0 then Present(OpenLibrary, row.olKey) else [])
                        + (if c > 1 then Present(Goodreads, row.grKey) else [])
                        + (if c > 2 then Present(Hardcover, row.hcKey) else [])
    {
      var (provider, raw) := columns[c];
      if raw.Some? && Trim(raw.value) != "" {
        keys := keys + [(provider, Trim(raw.value))];
      }
    }
  }

  lemma LoadSnoc(rows: seq<SettledRow>, row: SettledRow)
    ensures Tuples(rows + [row]) == Tuples(rows) + [TupleOf(row)]
    ensures KeyCount(rows + [row]) == KeyCount(rows) + |KeysOf(row)|
  {
    assert (rows + [row])[..|rows|] == rows;
  }

  method LoadSettledTuples(rows: seq<SettledRow>) returns (works: seq<SettledTuple>, keyCount: nat)
    ensures works == Canonical(rows) && keyCount == KeyCount(rows)
  {
    works, keyCount := [], 0;
    for n := 0 to |rows|
      invariant works == Tuples(rows[..n]) && keyCount == KeyCount(rows[..n])
    {
      var keys := ProviderKeys(rows[n]);
      works := works + [SettledTuple(rows[n].id, rows[n].status, Sort(keys, KeyLe))];
      keyCount := keyCount + |keys|;
      LoadSnoc(rows[..n], rows[n]);
      assert rows[..n + 1] == rows[..n] + [rows[n]];
    }
    assert rows[..|rows|] == rows;
    works := Sort(works, TupleLe);
  }

  // ------------------------------------------------------------------
  // The hashed buffer
  // ------------------------------------------------------------------

  function BigEndian(width: nat, n: nat): (b: seq<byte>)
    ensures |b| == width
  {
    if width == 0 then [] else BigEndian(width - 1, n / 256) + [n % 256]
  }

  function Field(text: string): seq<byte> {
    BigEndian(8, |Utf8.Encode(text)|) + Utf8.Encode(text)
  }

  method PushField(buffer: seq<byte>, text: string) returns (extended: seq<byte>)
    ensures extended == buffer + Field(text)
  {
    extended := buffer + BigEndian(8, |Utf8.Encode(text)|);
    extended := extended + Utf8.Encode(text);
  }

  function Flatten(fields: seq<string>): seq<byte> {
    if fields == [] then [] else Field(fields[0]) + Flatten(fields[1..])
  }

  function KeyFields(keys: seq<ProviderKey>): seq<string> {
    if keys == [] then [] else [Tag(keys[0].0), keys[0].1] + KeyFields(keys[1..])
  }

  function WorkFields(w: SettledTuple): seq<string> {
    [Decimal.ShowInt(w.workId), w.status] + KeyFields(w.keys)
  }

  function Fields(works: seq<SettledTuple>): seq<string> {
    if works == [] then [] else WorkFields(works[0]) + Fields(works[1..])
  }

  function Preimage(works: seq<SettledTuple>): seq<byte> {
    Flatten(Fields(works))
  }

  function FingerprintFrom(works: seq<SettledTuple>, keyCount: nat): LinkCodec.Fingerprint {
    LinkCodec.Fingerprint(|works|, keyCount, Decimal.Hex(32, Hash(OFFSET_BASIS, Preimage(works))))
  }

  lemma {:induction false} FlattenConcat(fs: seq<string>, gs: seq<string>)
    ensures Flatten(fs + gs) == Flatten(fs) + Flatten(gs)
  {
    if fs == [] {
      assert fs + gs == gs;
    } else {
      assert (fs + gs)[1..] == fs[1..] + gs;
      FlattenConcat(fs[1..], gs);
    }
  }

  lemma FlattenOne(f: string)
    ensures Flatten([f]) == Field(f)
  {
    assert [f][1..] == [];
    assert Field(f) + Flatten([]) == Field(f);
  }

  lemma {:induction false} KeyFieldsSnoc(keys: seq<ProviderKey>, k: ProviderKey)
    ensures KeyFields(keys + [k]) == KeyFields(keys) + [Tag(k.0), k.1]
  {
    if keys == [] {
      assert keys + [k] == [k] && [k][1..] == [];
    } else {
      assert (keys + [k])[1..] == keys[1..] + [k];
      KeyFieldsSnoc(keys[1..], k);
    }
  }

  lemma {:induction false} FieldsSnoc(works: seq<SettledTuple>, w: SettledTuple)
    ensures Fields(works + [w]) == Fields(works) + WorkFields(w)
  {
    if works == [] {
      assert works + [w] == [w] && [w][1..] == [];
      assert WorkFields(w) + Fields([]) == WorkFields(w);
    } else {
      assert (works + [w])[1..] == works[1..] + [w];
      FieldsSnoc(works[1..], w);
    }
  }

  lemma PushAppends(buffer: seq<byte>, fields: seq<string>, f: string)
    ensures buffer + Flatten(fields) + Field(f) == buffer + Flatten(fields + [f])
  {
    FlattenOne(f);
    FlattenConcat(fields, [f]);
    assert buffer + Flatten(fields) + Field(f) == buffer + (Flatten(fields) + Field(f));
  }

  // One work's pushes.
  method PushWork(buffer: seq<byte>, work: SettledTuple) returns (extended: seq<byte>)
    ensures extended == buffer + Flatten(WorkFields(work))
  {
    ghost var fields: seq<string> := [];
    assert buffer == buffer + Flatten([]);
    extended := PushField(buffer, Decimal.ShowInt(work.workId));
    PushAppends(buffer, fields, Decimal.ShowInt(work.workId));
    fields := fields + [Decimal.ShowInt(work.workId)];
    extended := PushField(extended, work.status);
    PushAppends(buffer, fields, work.status);
    fields := fields + [work.status];
    ghost var head := fields;
    for k := 0 to |work.keys|
      invariant fields == head + KeyFields(work.keys[..k])
      invariant extended == buffer + Flatten(fields)
    {
      var (provider, key) := work.keys[k];
      extended := PushField(extended, Tag(provider));
      PushAppends(buffer, fields, Tag(provider));
      fields := fields + [Tag(provider)];
      extended := PushField(extended, key);
      PushAppends(buffer, fields, key);
      fields := fields + [key];
      KeyFieldsSnoc(work.keys[..k], work.keys[k]);
      assert work.keys[..k + 1] == work.keys[..k] + [work.keys[k]];
    }
    assert work.keys[..|work.keys|] == work.keys;
  }

  method FingerprintOf(works: seq<SettledTuple>, keyCount: nat) returns (f: LinkCodec.Fingerprint)
    ensures f == FingerprintFrom(works, keyCount)
  {
    var buffer: seq<byte> := [];
    for n := 0 to |works|
      invariant buffer == Preimage(works[..n])
    {
      buffer := PushWork(buffer, works[n]);
      FieldsSnoc(works[..n], works[n]);
      FlattenConcat(Fields(works[..n]), WorkFields(works[n]));
      assert works[..n + 1] == works[..n] + [works[n]];
    }
    assert works[..|works|] == works;
    var hash := Fnv1a128(buffer);
    f := LinkCodec.Fingerprint(|works|, keyCount, Decimal.Hex(32, hash));
  }

  // ------------------------------------------------------------------
  // The buffer determines the fields
  // ------------------------------------------------------------------

  // A Rust string is shorter than the u64 its length is written as.
  ghost predicate Storable(fields: seq<string>) {
    forall i :: 0 <= i < |fields| ==> |Utf8.Encode(fields[i])| <= Decimal.U64_MAX
  }

  function Pow256(w: nat): (r: nat)
    ensures r > 0
  {
    if w == 0 then 1 else 256 * Pow256(w - 1)
  }

  lemma {:induction false} BigEndianInjective(width: nat, m: nat, n: nat)
    requires m < Pow256(width) && n < Pow256(width) && BigEndian(width, m) == BigEndian(width, n)
    ensures m == n
  {
    if width > 0 {
      var a, b := BigEndian(width, m), BigEndian(width, n);
      assert a[..width - 1] == BigEndian(width - 1, m / 256) && b[..width - 1] == BigEndian(width - 1, n / 256);
      assert a[width - 1] == m % 256 && b[width - 1] == n % 256;
      BigEndianInjective(width - 1, m / 256, n / 256);
    }
  }

  lemma EightBytes()
    ensures Pow256(8) == Decimal.U64_MAX + 1
  {
    assert Pow256(2) == 65536;
    assert Pow256(4) == 65536 * 65536;
    assert Pow256(8) == 256 * Pow256(7) == 65536 * Pow256(6) == 65536 * 256 * Pow256(5) == 65536 * 65536 * Pow256(4);
  }

  lemma FieldIsPrefixFree(f: string, g: string, rest: seq<byte>, rest': seq<byte>)
    requires Storable([f]) && Storable([g])
    requires Field(f) + rest == Field(g) + rest'
    ensures f == g && rest == rest'
  {
    var b, c := Field(f) + rest, Field(g) + rest';
    var m, n := |Utf8.Encode(f)|, |Utf8.Encode(g)|;
    assert [f][0] == f && [g][0] == g;
    assert BigEndian(8, m) == b[..8] && BigEndian(8, n) == c[..8];
    EightBytes();
    BigEndianInjective(8, m, n);
    assert Utf8.Encode(f) == b[8..8 + m] && Utf8.Encode(g) == c[8..8 + n];
    Utf8.EncodeInjective(f, g);
    assert rest == b[8 + m..] && rest' == c[8 + n..];
  }

  lemma {:induction false} FlattenInjective(fs: seq<string>, gs: seq<string>)
    requires Storable(fs) && Storable(gs) && Flatten(fs) == Flatten(gs)
    ensures fs == gs
  {
    if fs != [] && gs != [] {
      FieldIsPrefixFree(fs[0], gs[0], Flatten(fs[1..]), Flatten(gs[1..]));
      FlattenInjective(fs[1..], gs[1..]);
      assert fs == [fs[0]] + fs[1..] && gs == [gs[0]] + gs[1..];
    }
  }

  // ------------------------------------------------------------------
  // The fields determine the works
  // ------------------------------------------------------------------

  lemma TagIsNoNumber(p: Provider, id: int)
    ensures Tag(p) != Decimal.ShowInt(id)
  {
    assert Decimal.IsDigit(Decimal.Show(if id < 0 then -id else id)[0]);
  }

  lemma TagInjective(p: Provider, q: Provider)
    requires Tag(p) == Tag(q)
    ensures p == q
  {
    assert Tag(OpenLibrary)[0] == 'o' && Tag(Goodreads)[0] == 'g' && Tag(Hardcover)[0] == 'h';
  }

  // Where a work ends, either the buffer ends or a work id comes next.
  ghost predicate StartsWork(rest: seq<string>) {
    rest == [] || exists id :: rest[0] == Decimal.ShowInt(id)
  }

  // A list of keys starts with a tag, which is not how a work id starts.
  lemma KeyFieldsHead(ks: seq<ProviderKey>, rest: seq<string>)
    requires ks != []
    ensures var all := KeyFields(ks) + rest;
            |all| >= 2 && all[0] == Tag(ks[0].0) && all[1] == ks[0].1 && all[2..] == KeyFields(ks[1..]) + rest
    ensures !StartsWork(KeyFields(ks) + rest)
  {
    var all := KeyFields(ks) + rest;
    assert KeyFields(ks) == [Tag(ks[0].0), ks[0].1] + KeyFields(ks[1..]);
    assert all == [Tag(ks[0].0), ks[0].1] + (KeyFields(ks[1..]) + rest);
    forall id ensures all[0] != Decimal.ShowInt(id) {
      TagIsNoNumber(ks[0].0, id);
    }
  }

  lemma {:induction false} KeyFieldsDecode(
      ks: seq<ProviderKey>, ls: seq<ProviderKey>, rest: seq<string>, rest': seq<string>)
    requires StartsWork(rest) && StartsWork(rest')
    requires KeyFields(ks) + rest == KeyFields(ls) + rest'
    ensures ks == ls && rest == rest'
  {
    assert KeyFields([]) + rest == rest && KeyFields([]) + rest' == rest';
    if ks == [] && ls != [] {
      KeyFieldsHead(ls, rest');
    } else if ks != [] {
      KeyFieldsHead(ks, rest);
      if ls != [] {
        KeyFieldsHead(ls, rest');
        TagInjective(ks[0].0, ls[0].0);
        KeyFieldsDecode(ks[1..], ls[1..], rest, rest');
        assert ks == [ks[0]] + ks[1..] && ls == [ls[0]] + ls[1..];
      }
    }
  }

  lemma FieldsStartWork(works: seq<SettledTuple>)
    ensures StartsWork(Fields(works))
    ensures works != [] ==> Fields(works) != []
  {
    if works != [] {
      assert Fields(works)[0] == Decimal.ShowInt(works[0].workId);
    }
  }

  lemma {:induction false} FieldsInjective(ws: seq<SettledTuple>, vs: seq<SettledTuple>)
    requires Fields(ws) == Fields(vs)
    ensures ws == vs
  {
    FieldsStartWork(ws);
    FieldsStartWork(vs);
    if ws != [] && vs != [] {
      FirstWorkDecodes(ws[0], vs[0], Fields(ws[1..]), Fields(vs[1..])) by {
        FieldsStartWork(ws[1..]);
        FieldsStartWork(vs[1..]);
      }
      FieldsInjective(ws[1..], vs[1..]);
      assert ws == [ws[0]] + ws[1..] && vs == [vs[0]] + vs[1..];
    }
  }

  lemma FirstWorkDecodes(w: SettledTuple, v: SettledTuple, rest: seq<string>, rest': seq<string>)
    requires StartsWork(rest) && StartsWork(rest')
    requires WorkFields(w) + rest == WorkFields(v) + rest'
    ensures w == v && rest == rest'
  {
    var all, all' := WorkFields(w) + rest, WorkFields(v) + rest';
    assert all[0] == Decimal.ShowInt(w.workId) && all'[0] == Decimal.ShowInt(v.workId);
    Decimal.ShowIntInjective(w.workId, v.workId);
    assert all[1] == w.status && all'[1] == v.status;
    assert all[2..] == KeyFields(w.keys) + rest && all'[2..] == KeyFields(v.keys) + rest';
    KeyFieldsDecode(w.keys, v.keys, rest, rest');
  }

  // ------------------------------------------------------------------
  // The works determine the evidence, and the evidence the works
  // ------------------------------------------------------------------

  lemma KeyLeTotal(d: set<ProviderKey>)
    ensures TotalOn(KeyLe, d)
  {
    forall x, y | x in d && y in d
      ensures KeyLe(x, y) || KeyLe(y, x)
      ensures KeyLe(x, y) && KeyLe(y, x) ==> x == y
    {
      TextLeTotal(Tag(x.0), Tag(y.0));
      TextLeTotal(x.1, y.1);
      if Tag(x.0) == Tag(y.0) {
        TagInjective(x.0, y.0);
      }
    }
    forall x, y, z | x in d && y in d && z in d && KeyLe(x, y) && KeyLe(y, z) ensures KeyLe(x, z) {
      KeyLeTransitive(x, y, z);
    }
  }

  lemma KeyLeTransitive(x: ProviderKey, y: ProviderKey, z: ProviderKey)
    requires KeyLe(x, y) && KeyLe(y, z)
    ensures KeyLe(x, z)
  {
    if Tag(x.0) == Tag(y.0) == Tag(z.0) {
      TextLeTransitive(x.1, y.1, z.1);
    } else if Tag(x.0) != Tag(y.0) && Tag(y.0) != Tag(z.0) {
      TextLeTransitive(Tag(x.0), Tag(y.0), Tag(z.0));
      TextLeTotal(Tag(x.0), Tag(y.0));
    }
  }

  lemma KeysDistinct(row: SettledRow)
    ensures forall i, j :: 0 <= i < j < |KeysOf(row)| ==> KeysOf(row)[i] != KeysOf(row)[j]
  {}

  lemma SameKeySetSameOrder(r: SettledRow, q: SettledRow)
    requires (set k | k in KeysOf(r)) == (set k | k in KeysOf(q))
    ensures Sort(KeysOf(r), KeyLe) == Sort(KeysOf(q), KeyLe)
  {
    var ks, ls := KeysOf(r), KeysOf(q);
    var d := set k | k in ks;
    KeysDistinct(r);
    KeysDistinct(q);
    forall k ensures k in ks <==> k in ls {
      assert k in d <==> k in (set l | l in ls);
    }
    DistinctSeqsAsBags(ks, ls);
    KeyLeTotal(d);
    SortDecidesBag(ks, ls, KeyLe, d);
  }

  // A work's evidence read off its tuple.
  ghost function Facts(t: SettledTuple): (int, string, set<ProviderKey>) {
    (t.workId, t.status, set k | k in t.keys)
  }

  lemma SameElements(ks: seq<ProviderKey>)
    ensures (set k | k in Sort(ks, KeyLe)) == set k | k in ks
  {
    forall k ensures k in Sort(ks, KeyLe) <==> k in ks {
      assert k in Sort(ks, KeyLe) <==> k in multiset(Sort(ks, KeyLe));
      assert k in ks <==> k in multiset(ks);
    }
  }

  lemma FactsOfTuple(row: SettledRow)
    ensures Facts(TupleOf(row)) == (row.id, row.status, set k | k in KeysOf(row))
  {
    SameElements(KeysOf(row));
  }

  lemma {:induction false} TuplesLength(rows: seq<SettledRow>)
    ensures |Tuples(rows)| == |rows|
  {
    if rows != [] {
      TuplesLength(rows[..|rows| - 1]);
    }
  }

  lemma {:induction false} TupleAt(rows: seq<SettledRow>, i: nat)
    requires i < |rows|
    ensures |Tuples(rows)| == |rows| && Tuples(rows)[i] == TupleOf(rows[i])
  {
    TuplesLength(rows);
    var front := rows[..|rows| - 1];
    TuplesLength(front);
    if i < |front| {
      TupleAt(front, i);
      assert front[i] == rows[i];
    }
  }

  lemma EvidenceAt(rows: seq<SettledRow>, i: nat)
    requires i < |rows|
    ensures |Tuples(rows)| == |rows|
    ensures Facts(Tuples(rows)[i]) == (rows[i].id, rows[i].status, set k | k in KeysOf(rows[i]))
  {
    TupleAt(rows, i);
    FactsOfTuple(rows[i]);
  }

  lemma EvidenceOfTuples(rows: seq<SettledRow>)
    ensures Evidence(rows) == set t | t in Tuples(rows) :: Facts(t)
  {
    TuplesLength(rows);
    forall i | 0 <= i < |rows|
      ensures Facts(Tuples(rows)[i]) == (rows[i].id, rows[i].status, set k | k in KeysOf(rows[i]))
    {
      EvidenceAt(rows, i);
    }
    var facts := set t | t in Tuples(rows) :: Facts(t);
    forall e | e in Evidence(rows) ensures e in facts {
      var i :| 0 <= i < |rows| && e == (rows[i].id, rows[i].status, set k | k in KeysOf(rows[i]));
      assert Tuples(rows)[i] in Tuples(rows);
    }
    forall e | e in facts ensures e in Evidence(rows) {
      var i :| 0 <= i < |Tuples(rows)| && e == Facts(Tuples(rows)[i]);
    }
  }

  // Facts lose nothing: rows with the same facts have the same tuple.
  lemma SameFactsSameTuple(a: seq<SettledRow>, i: nat, b: seq<SettledRow>, j: nat)
    requires i < |a| && j < |b| && |Tuples(a)| == |a| && |Tuples(b)| == |b|
    requires Facts(Tuples(a)[i]) == Facts(Tuples(b)[j])
    ensures Tuples(a)[i] == Tuples(b)[j]
  {
    EvidenceAt(a, i);
    EvidenceAt(b, j);
    SameKeySetSameOrder(a[i], b[j]);
    TupleAt(a, i);
    TupleAt(b, j);
  }

  lemma TuplesIncluded(a: seq<SettledRow>, b: seq<SettledRow>, t: SettledTuple)
    requires Evidence(a) == Evidence(b) && t in Tuples(a)
    ensures t in Tuples(b)
  {
    TuplesLength(a);
    TuplesLength(b);
    EvidenceOfTuples(a);
    EvidenceOfTuples(b);
    assert Facts(t) in Evidence(b);
    var u :| u in Tuples(b) && Facts(u) == Facts(t);
    var i :| 0 <= i < |Tuples(a)| && Tuples(a)[i] == t;
    var j :| 0 <= j < |Tuples(b)| && Tuples(b)[j] == u;
    SameFactsSameTuple(a, i, b, j);
  }

  lemma TuplesDistinct(rows: seq<SettledRow>)
    requires DistinctIds(rows)
    ensures forall i, j :: 0 <= i < j < |Tuples(rows)| ==> Tuples(rows)[i].workId != Tuples(rows)[j].workId
  {
    TuplesLength(rows);
    forall i | 0 <= i < |rows| ensures Tuples(rows)[i].workId == rows[i].id {
      TupleAt(rows, i);
    }
  }

  lemma SameEvidenceSameOrder(a: seq<SettledRow>, b: seq<SettledRow>)
    requires DistinctIds(a) && DistinctIds(b) && Evidence(a) == Evidence(b)
    ensures Canonical(a) == Canonical(b)
  {
    var ts, us := Tuples(a), Tuples(b);
    forall t ensures t in ts <==> t in us {
      if t in ts { TuplesIncluded(a, b, t); }
      if t in us { TuplesIncluded(b, a, t); }
    }
    TuplesDistinct(a);
    TuplesDistinct(b);
    SameTuplesSameOrder(ts, us);
  }

  lemma SameTuplesSameOrder(ts: seq<SettledTuple>, us: seq<SettledTuple>)
    requires forall t :: t in ts <==> t in us
    requires forall i, j :: 0 <= i < j < |ts| ==> ts[i].workId != ts[j].workId
    requires forall i, j :: 0 <= i < j < |us| ==> us[i].workId != us[j].workId
    ensures Sort(ts, TupleLe) == Sort(us, TupleLe)
  {
    DistinctSeqsAsBags(ts, us);
    var d := set t | t in ts;
    TupleLeTotal(ts, d);
    SortDecidesBag(ts, us, TupleLe, d);
  }

  lemma TupleLeTotal(ts: seq<SettledTuple>, d: set<SettledTuple>)
    requires d == set t | t in ts
    requires forall i, j :: 0 <= i < j < |ts| ==> ts[i].workId != ts[j].workId
    ensures TotalOn(TupleLe, d)
  {
    forall x, y | x in d && y in d
      ensures TupleLe(x, y) || TupleLe(y, x)
      ensures TupleLe(x, y) && TupleLe(y, x) ==> x == y
    {
      TextLeTotal(x.status, y.status);
    }
    forall x, y, z | x in d && y in d && z in d && TupleLe(x, y) && TupleLe(y, z) ensures TupleLe(x, z) {
      if x.workId == y.workId == z.workId {
        TextLeTransitive(x.status, y.status, z.status);
      }
    }
  }

  lemma SameOrderSameEvidence(a: seq<SettledRow>, b: seq<SettledRow>)
    requires Canonical(a) == Canonical(b)
    ensures Evidence(a) == Evidence(b)
  {
    EvidenceOfTuples(a);
    EvidenceOfTuples(b);
    assert multiset(Tuples(a)) == multiset(Canonical(a)) == multiset(Tuples(b));
    forall t ensures t in Tuples(a) <==> t in Tuples(b) {
      assert t in Tuples(a) <==> t in multiset(Tuples(a));
      assert t in Tuples(b) <==> t in multiset(Tuples(b));
    }
  }

  // Two reads hash the same buffer exactly when they hold the same settled
  // works with the same provider keys, whatever order the rows came in.
  lemma PreimageDecidesEvidence(a: seq<SettledRow>, b: seq<SettledRow>)
    requires DistinctIds(a) && DistinctIds(b)
    requires Storable(Fields(Canonical(a))) && Storable(Fields(Canonical(b)))
    ensures Preimage(Canonical(a)) == Preimage(Canonical(b)) <==> Evidence(a) == Evidence(b)
  {
    if Preimage(Canonical(a)) == Preimage(Canonical(b)) {
      FlattenInjective(Fields(Canonical(a)), Fields(Canonical(b)));
      FieldsInjective(Canonical(a), Canonical(b));
      SameOrderSameEvidence(a, b);
    }
    if Evidence(a) == Evidence(b) {
      SameEvidenceSameOrder(a, b);
    }
  }

  lemma HexWidth()
    ensures Decimal.Pow16(32) == MODULUS
  {
    assert Decimal.Pow16(4) == 65536;
    assert Decimal.Pow16(8) == 16 * Decimal.Pow16(7) == 256 * Decimal.Pow16(6) == 65536 * Decimal.Pow16(4);
    assert Decimal.Pow16(12) == 16 * Decimal.Pow16(11) == 256 * Decimal.Pow16(10) == 65536 * Decimal.Pow16(8);
    assert Decimal.Pow16(16) == 16 * Decimal.Pow16(15) == 256 * Decimal.Pow16(14) == 65536 * Decimal.Pow16(12);
    assert Decimal.Pow16(20) == 16 * Decimal.Pow16(19) == 256 * Decimal.Pow16(18) == 65536 * Decimal.Pow16(16);
    assert Decimal.Pow16(24) == 16 * Decimal.Pow16(23) == 256 * Decimal.Pow16(22) == 65536 * Decimal.Pow16(20);
    assert Decimal.Pow16(28) == 16 * Decimal.Pow16(27) == 256 * Decimal.Pow16(26) == 65536 * Decimal.Pow16(24);
    assert Decimal.Pow16(32) == 16 * Decimal.Pow16(31) == 256 * Decimal.Pow16(30) == 65536 * Decimal.Pow16(28);
  }

  // A change of evidence that touches a single byte of the buffer and keeps its
  // length is always noticed in the stored content hash.
  lemma OneByteChangeIsNoticed(ws: seq<SettledTuple>, vs: seq<SettledTuple>, n: nat, m: nat, k: nat)
    requires k < |Preimage(ws)| == |Preimage(vs)| && Preimage(ws)[k] != Preimage(vs)[k]
    requires forall i :: 0 <= i < |Preimage(ws)| && i != k ==> Preimage(ws)[i] == Preimage(vs)[i]
    ensures FingerprintFrom(ws, n).contentHash != FingerprintFrom(vs, m).contentHash
  {
    OneByteNeverCollides(OFFSET_BASIS, Preimage(ws), Preimage(vs), k);
    HexWidth();
    if FingerprintFrom(ws, n).contentHash == FingerprintFrom(vs, m).contentHash {
      Decimal.HexInjective(32, Hash(OFFSET_BASIS, Preimage(ws)), Hash(OFFSET_BASIS, Preimage(vs)));
    }
  }
}
