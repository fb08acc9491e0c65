// The canonical author route key and its parser
// (crates/livrarr-domain/src/author_link.rs:28-166).
module RouteKeys {
  import opened Basics
  import Decimal

  datatype Provider = OpenLibrary | Goodreads | Hardcover

  datatype RouteKey =
    | OpenLibraryKey(key: string)
    | GoodreadsKey(id: nat)
    | HardcoverKey(id: nat)
  {
    function Provider(): Provider {
      match this
      case OpenLibraryKey(_) => OpenLibrary
      case GoodreadsKey(_) => Goodreads
      case HardcoverKey(_) => Hardcover
    }

    // The stored value that uniqueness and tombstone lookups compare.
    function Value(): string {
      match this
      case OpenLibraryKey(key) => key
      case GoodreadsKey(id) => Decimal.Show(id)
      case HardcoverKey(id) => Decimal.Show(id)
    }
  }

  const URL_PREFIXES: seq<string> :=
    ["https://openlibrary.org", "http://openlibrary.org", "https://www.openlibrary.org", "http://www.openlibrary.org"]

  predicate IsCanonicalDecimal(digits: string) {
    digits != "" && digits[0] != '0' && Decimal.AllDigits(digits)
  }

  function WithoutUrlPrefix(s: string, prefixes: seq<string>): string {
    if prefixes == [] then s
    else match StripPrefix(prefixes[0], s)
      case Some(rest) => rest
      case None => WithoutUrlPrefix(s, prefixes[1..])
  }

  function ParseOpenLibrary(trimmed: string): Option<RouteKey> {
    var path := WithoutUrlPrefix(trimmed, URL_PREFIXES);
    var candidate :=
      match StripPrefix("/authors/", path)
      case Some(rest) => (match SplitOnce(rest, '/') case Some((first, _)) => first case None => rest)
      case None => path;
    if |candidate| >= 3 && "OL" <= candidate && candidate[|candidate| - 1] == 'A' then
      var digits := candidate[2..|candidate| - 1];
      if IsCanonicalDecimal(digits) && Decimal.Value(digits) <= Decimal.U64_MAX
      then Some(OpenLibraryKey(candidate)) else None
    else None
  }

  function ParseNumeric(trimmed: string): Option<nat> {
    if Decimal.AllDigits(trimmed) then
      match Decimal.ParseUnsigned(trimmed, Decimal.U64_MAX)
      case Some(id) => if id == 0 then None else Some(id)
      case None => None
    else None
  }

  // `AuthorRouteKey::parse`; None stands for the InvalidRoute error.
  function Parse(provider: Provider, raw: string): Option<RouteKey> {
    var trimmed := Trim(raw);
    if trimmed == "" then None
    else match provider
      case OpenLibrary => ParseOpenLibrary(trimmed)
      case Goodreads => (match ParseNumeric(trimmed) case Some(id) => Some(GoodreadsKey(id)) case None => None)
      case Hardcover => (match ParseNumeric(trimmed) case Some(id) => Some(HardcoverKey(id)) case None => None)
  }

  // The values the parser can return.
  predicate Canonical(key: RouteKey) {
    match key
    case OpenLibraryKey(k) =>
      |k| >= 3 && "OL" <= k && k[|k| - 1] == 'A'
      && IsCanonicalDecimal(k[2..|k| - 1]) && Decimal.Value(k[2..|k| - 1]) <= Decimal.U64_MAX
    case GoodreadsKey(id) => 0 < id <= Decimal.U64_MAX
    case HardcoverKey(id) => 0 < id <= Decimal.U64_MAX
  }

  lemma ParseIsCanonical(provider: Provider, raw: string)
    ensures Parse(provider, raw).Some? ==>
              Canonical(Parse(provider, raw).value) && Parse(provider, raw).value.Provider() == provider
  {}

  lemma {:induction false} NoUrlPrefix(k: string, prefixes: seq<string>)
    requires forall i :: 0 <= i < |prefixes| ==> !(prefixes[i] <= k)
    ensures WithoutUrlPrefix(k, prefixes) == k
  {
    if prefixes != [] {
      NoUrlPrefix(k, prefixes[1..]);
    }
  }

  // Re-parsing a stored canonical value gives the same key back, so the guard
  // of the user attach never refuses a key the parser produced.
  lemma ParseOfValue(key: RouteKey)
    requires Canonical(key)
    ensures Parse(key.Provider(), key.Value()) == Some(key)
  {
    TrimIsIdempotent(key.Value());
    match key {
      case OpenLibraryKey(k) =>
        assert k[0] == 'O';
        assert forall i :: 0 <= i < |URL_PREFIXES| ==> URL_PREFIXES[i][0] == 'h';
        NoUrlPrefix(k, URL_PREFIXES);
        assert StripPrefix("/authors/", k) == None;
      case GoodreadsKey(id) => Decimal.ParseUnsignedOfShow(id, Decimal.U64_MAX);
      case HardcoverKey(id) => Decimal.ParseUnsignedOfShow(id, Decimal.U64_MAX);
    }
  }

  // A canonical key never holds the cursor separator.
  lemma ValueHasNoColon(key: RouteKey)
    requires Canonical(key)
    ensures ':' !in key.Value()
  {
    match key {
      case OpenLibraryKey(k) =>
        assert k == "OL" + k[2..|k| - 1] + "A";
      case GoodreadsKey(id) =>
      case HardcoverKey(id) =>
    }
  }
}
