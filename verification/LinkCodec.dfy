// Stored text of the road cursor and the evidence fingerprint
// (crates/livrarr-db/src/sqlite_author_link_codec.rs:305-374).
module LinkCodec {
  import opened Basics
  import opened RouteKeys
  import Decimal

  datatype Cursor =
    | Tier1(keyAttemptId: int)
    | Tier2Search
    | Tier2Catalog(candidate: RouteKey, page: Option<string>)

  // What the Rust types admit: an i64 id, and a parsed OpenLibrary key.
  predicate ValidCursor(c: Cursor) {
    match c
    case Tier1(id) => -Decimal.I64_MAX - 1 <= id <= Decimal.I64_MAX
    case Tier2Search => true
    case Tier2Catalog(candidate, _) => candidate.OpenLibraryKey? && Canonical(candidate)
  }

  function CursorToString(c: Cursor): string {
    match c
    case Tier1(id) => "tier1:" + Decimal.ShowInt(id)
    case Tier2Search => "tier2_search"
    case Tier2Catalog(candidate, page) =>
      match page
      case Some(text) => "tier2_catalog:" + (candidate.Value() + ":" + text)
      case None => "tier2_catalog:" + candidate.Value()
  }

  function CursorFromString(raw: string): Option<Cursor> {
    if raw == "tier2_search" then Some(Tier2Search)
    else match StripPrefix("tier1:", raw)
      case Some(id) => (match Decimal.ParseI64(id) case Some(n) => Some(Tier1(n)) case None => None)
      case None =>
        match StripPrefix("tier2_catalog:", raw)
        case None => None
        case Some(rest) =>
          var (candidate, page) :=
            match SplitOnce(rest, ':')
            case Some((before, after)) => (before, Some(after))
            case None => (rest, None);
          match Parse(OpenLibrary, candidate)
          case Some(key) => Some(Tier2Catalog(key, page))
          case None => None
  }

  lemma Tier1RoundTrip(id: int)
    requires ValidCursor(Tier1(id))
    ensures CursorFromString(CursorToString(Tier1(id))) == Some(Tier1(id))
  {
    var raw := CursorToString(Tier1(id));
    Decimal.ParseI64OfShow(id);
    assert raw[|"tier1:"|..] == Decimal.ShowInt(id);
    assert raw[4] == '1' && "tier2_search"[4] == '2';
  }

  // The key never holds a colon, so the first one ends it.
  lemma CatalogTailSplits(candidate: RouteKey, page: Option<string>)
    requires candidate.OpenLibraryKey? && Canonical(candidate)
    ensures CursorFromString("tier2_catalog:" + (if page.Some? then candidate.Value() + ":" + page.value
            else candidate.Value()))
         == Some(Tier2Catalog(candidate, page))
  {
    var rest := if page.Some? then candidate.Value() + ":" + page.value else candidate.Value();
    var raw := "tier2_catalog:" + rest;
    assert raw[6] == 'c' && "tier2_search"[6] == 's';
    assert raw[4] == '2' && "tier1:"[4] == '1';
    assert StripPrefix("tier1:", raw) == None;
    assert raw[|"tier2_catalog:"|..] == rest;
    ValueHasNoColon(candidate);
    if page.Some? {
      SplitOnceFinds(candidate.Value(), ':', page.value);
    } else {
      SplitOnceMisses(candidate.Value(), ':');
    }
    ParseOfValue(candidate);
  }

  // Any page text is allowed, also the empty one and one that holds colons.
  lemma CursorRoundTrip(c: Cursor)
    requires ValidCursor(c)
    ensures CursorFromString(CursorToString(c)) == Some(c)
  {
    match c {
      case Tier1(id) => Tier1RoundTrip(id);
      case Tier2Search =>
      case Tier2Catalog(candidate, page) => CatalogTailSplits(candidate, page);
    }
  }

  // So no two cursors, of one shape or of two, share a stored text.
  lemma CursorEncodingInjective(c: Cursor, d: Cursor)
    requires ValidCursor(c) && ValidCursor(d)
    requires CursorToString(c) == CursorToString(d)
    ensures c == d
  {
    CursorRoundTrip(c);
    CursorRoundTrip(d);
  }

  // Whatever decodes is a cursor the Rust types admit, so decoding and encoding
  // again settles after one step.
  lemma DecodedCursorIsValid(raw: string)
    requires CursorFromString(raw).Some?
    ensures ValidCursor(CursorFromString(raw).value)
    ensures CursorFromString(CursorToString(CursorFromString(raw).value)) == CursorFromString(raw)
  {
    CursorRoundTrip(CursorFromString(raw).value);
  }

  datatype Fingerprint = Fingerprint(workCount: nat, keyCount: nat, contentHash: string)

  predicate ValidFingerprint(f: Fingerprint) {
    f.workCount <= Decimal.U32_MAX && f.keyCount <= Decimal.U32_MAX
  }

  function FingerprintToString(f: Fingerprint): string {
    Decimal.Show(f.workCount) + ":" + (Decimal.Show(f.keyCount) + ":" + f.contentHash)
  }

  // `splitn(3, ':')`: the third part keeps every later colon.
  function FingerprintFromString(raw: string): Option<Fingerprint> {
    match SplitOnce(raw, ':')
    case None => None
    case Some((works, rest)) =>
      match SplitOnce(rest, ':')
      case None => None
      case Some((keys, hash)) =>
        match (Decimal.ParseUnsigned(works, Decimal.U32_MAX), Decimal.ParseUnsigned(keys, Decimal.U32_MAX))
        case (Some(w), Some(k)) => Some(Fingerprint(w, k, hash))
        case _ => None
  }

  lemma FingerprintRoundTrip(f: Fingerprint)
    requires ValidFingerprint(f)
    ensures FingerprintFromString(FingerprintToString(f)) == Some(f)
  {
    var works, keys := Decimal.Show(f.workCount), Decimal.Show(f.keyCount);
    SplitOnceFinds(works, ':', keys + [':'] + f.contentHash);
    SplitOnceFinds(keys, ':', f.contentHash);
    Decimal.ParseUnsignedOfShow(f.workCount, Decimal.U32_MAX);
    Decimal.ParseUnsignedOfShow(f.keyCount, Decimal.U32_MAX);
  }

  lemma FingerprintEncodingInjective(f: Fingerprint, g: Fingerprint)
    requires ValidFingerprint(f) && ValidFingerprint(g)
    requires FingerprintToString(f) == FingerprintToString(g)
    ensures f == g
  {
    FingerprintRoundTrip(f);
    FingerprintRoundTrip(g);
  }
}
