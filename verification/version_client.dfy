/** The version service client and its per-run cache (version_client.py).

    The HTTP request is not modelled: `fetch` stands for it, answering with
    the response text, or `None` when the request failed (no connection, a
    timeout or an error status). */
module VersionClient {
  import opened Wrappers
  import opened PyStr
  import opened Types

  /** What `product_version` answers when the service cannot be reached. */
  const SENTINEL: string := "00000"

  /** The raw version field: column 5 of the first "us" row, or "" when the
      body has no such row. A row with fewer than six columns raises. */
  function VersionField(body: string): (r: Result<string>)
  {
    var lines := SplitLines(body);
    match FirstWithPrefix(lines, "us")
    case None => Ok("")
    case Some(k) =>
      var columns := Split(lines[k], '|');
      if |columns| < 6 then Raise(IndexError) else Ok(columns[5])
  }

  /** The build number after the last dot is dropped; the rest must be
      exactly `major.minor.patch`, which becomes `major` followed by `minor`
      and `patch` each padded to two digits. */
  function FormatVersion(field: string): (r: Result<string>)
  {
    var parts := Split(BeforeLast(field, '.'), '.');
    if |parts| != 3 then Raise(ValueError)
    else Ok(parts[0] + ZFill(parts[1], 2) + ZFill(parts[2], 2))
  }

  /** The version `product_version` derives from a response body. */
  function ParseVersionBody(body: string): (r: Result<string>)
  {
    match VersionField(body)
    case Raise(e) => Raise(e)
    case Ok(field) => FormatVersion(field)
  }

  /** The scan over the response lines, as written: stop at the first "us"
      row, take its column 5, then format it. */
  method ParseVersion(body: string) returns (r: Result<string>)
    ensures r == ParseVersionBody(body)
  {
    var lines := SplitLines(body);
    FirstWithPrefixIsFirst(lines, "us");
    var version := "";
    var i := 0;
    while i < |lines|
      invariant 0 <= i <= |lines|
      invariant forall j :: 0 <= j < i ==> !StartsWith(lines[j], "us")
      invariant version == ""
    {
      if StartsWith(lines[i], "us") {
        var columns := Split(lines[i], '|');
        if |columns| < 6 {
          return Raise(IndexError);
        }
        version := columns[5];
        break;
      }
      i := i + 1;
    }
    r := FormatVersion(version);
  }

  /** A version string `major.minor.patch.build` is formatted as `major`
      with `minor` and `patch` padded to two digits. */
  lemma FormatVersionOfBuild(major: string, minor: string, patch: string, build: string)
    requires '.' !in major && '.' !in minor && '.' !in patch && '.' !in build
    ensures FormatVersion(major + "." + minor + "." + patch + "." + build)
         == Ok(major + ZFill(minor, 2) + ZFill(patch, 2))
  {
    var head := major + "." + minor + "." + patch;
    assert major + "." + minor + "." + patch + "." + build == head + ['.'] + build;
    BeforeLastAppend(head, build, '.');
    assert head == major + ['.'] + (minor + ['.'] + patch);
    SplitAtFirst(major, minor + ['.'] + patch, '.');
    SplitAtFirst(minor, patch, '.');
    SplitWithoutSeparator(patch, '.');
  }

  lemma RetailPieces()
    ensures "11.0.7.58238" == "11" + "." + "0" + "." + "7" + "." + "58238"
    ensures "11" + ZFill("0", 2) + ZFill("7", 2) == "110007"
  {
    assert ZFill("0", 2) == "00" && ZFill("7", 2) == "07";
  }

  /** The retail version of the service as an interface number. */
  lemma FormatRetailVersion()
    ensures FormatVersion("11.0.7.58238") == Ok("110007")
  {
    RetailPieces();
    FormatVersionOfBuild("11", "0", "7", "58238");
  }

  lemma EraPieces()
    ensures "1.15.5.57638" == "1" + "." + "15" + "." + "5" + "." + "57638"
    ensures "1" + ZFill("15", 2) + ZFill("5", 2) == "11505"
  {
    assert ZFill("15", 2) == "15" && ZFill("5", 2) == "05";
  }

  /** The classic era version of the service as an interface number. */
  lemma FormatEraVersion()
    ensures FormatVersion("1.15.5.57638") == Ok("11505")
  {
    EraPieces();
    FormatVersionOfBuild("1", "15", "5", "57638");
  }

  /** A version without a build number loses its patch and fails to unpack. */
  lemma FormatVersionWithoutBuild()
    ensures FormatVersion("11.0.7") == Raise(ValueError)
  {
    assert "11.0.7" == "11.0" + ['.'] + "7";
    BeforeLastAppend("11.0", "7", '.');
    assert "11.0" == "11" + ['.'] + "0";
    SplitAtFirst("11", "0", '.');
    SplitWithoutSeparator("0", '.');
  }

  /** With one- or two-digit minor and patch numbers the formatted version is
      the interface number major * 10000 + minor * 100 + patch. */
  lemma FormattedVersionValue(major: string, minor: string, patch: string)
    requires AllDigits(major) && AllDigits(minor) && AllDigits(patch)
    requires |minor| <= 2 && |patch| <= 2
    ensures AllDigits(major + ZFill(minor, 2) + ZFill(patch, 2))
    ensures Value(major + ZFill(minor, 2) + ZFill(patch, 2))
         == Value(major) * 10000 + Value(minor) * 100 + Value(patch)
  {
    var m, p := ZFill(minor, 2), ZFill(patch, 2);
    ZFillOfDigits(minor, 2);
    ZFillOfDigits(patch, 2);
    assert |m| == 2 && |p| == 2 && Pow10(2) == 100;
    ValueAppend(major, m);
    ValueAppend(major + m, p);
    var x, y, z := Value(major), Value(m), Value(p);
    calc {
      Value(major + m + p);
      Value(major + m) * 100 + z;
      (x * 100 + y) * 100 + z;
      x * 10000 + y * 100 + z;
    }
  }

  /** A body without a "us" row leaves the version empty, and unpacking the
      empty version into three parts raises ValueError. */
  lemma NoUsRowRaises(body: string)
    requires forall j :: 0 <= j < |SplitLines(body)| ==> !StartsWith(SplitLines(body)[j], "us")
    ensures ParseVersionBody(body) == Raise(ValueError)
  {
    FirstWithPrefixIsFirst(SplitLines(body), "us");
    assert Split("", '.') == [""];
  }

  // ---------------------------------------------------------------------------
  // The cache

  /** The per-run cache from product to version string. Only versions parsed
      from a response are stored; the sentinel for a failed request is not. */
  class VersionCache {
    var entries: map<Product, string>

    constructor ()
      ensures entries == map[]
    {
      entries := map[];
    }
  }

  /** What `product_version(product, cache)` answers when the cache holds
      `entries`. */
  function Lookup(entries: map<Product, string>, fetch: Product -> Option<string>, product: Product): Result<string>
  {
    if product in entries then Ok(entries[product])
    else match fetch(product)
      case None => Ok(SENTINEL)
      case Some(body) => ParseVersionBody(body)
  }

  /** Two caches answer every product alike. */
  ghost predicate SameAnswers(a: map<Product, string>, b: map<Product, string>, fetch: Product -> Option<string>) {
    forall p: Product :: Lookup(a, fetch, p) == Lookup(b, fetch, p)
  }

  /** The cache after `product_version(product, cache)`. */
  function Stored(entries: map<Product, string>, fetch: Product -> Option<string>, product: Product): map<Product, string>
  {
    if product in entries then entries
    else match fetch(product)
      case None => entries
      case Some(body) =>
        match ParseVersionBody(body)
        case Ok(version) => entries[product := version]
        case Raise(_) => entries
  }

  /** The cache after `product_version` is asked for each of `ps` in turn. */
  function StoredAll(entries: map<Product, string>, fetch: Product -> Option<string>, ps: seq<Product>): map<Product, string>
    decreases |ps|
  {
    if |ps| == 0 then entries
    else Stored(StoredAll(entries, fetch, ps[..|ps| - 1]), fetch, ps[|ps| - 1])
  }

  /** `product_version`: a cached answer, else the parsed response, which is
      then cached; a failed request answers the sentinel. */
  method ProductVersion(product: Product, cache: VersionCache, fetch: Product -> Option<string>)
    returns (r: Result<string>)
    modifies cache
    ensures r == Lookup(old(cache.entries), fetch, product)
    ensures cache.entries == Stored(old(cache.entries), fetch, product)
    ensures SameAnswers(cache.entries, old(cache.entries), fetch)
  {
    forall other: Product {
      StoredKeepsAnswers(cache.entries, fetch, product, other);
    }
    if product in cache.entries {
      return Ok(cache.entries[product]);
    }
    var response := fetch(product);
    if response.None? {
      return Ok(SENTINEL);
    }
    r := ParseVersion(response.value);
    if r.Ok? {
      cache.entries := cache.entries[product := r.value];
    }
  }

  /** Caching changes no answer: after any call, every product is answered
      as before. */
  lemma StoredKeepsAnswers(entries: map<Product, string>, fetch: Product -> Option<string>, product: Product, other: Product)
    ensures Lookup(Stored(entries, fetch, product), fetch, other) == Lookup(entries, fetch, other)
  {
  }

  /** The cache only grows, and keeps the answers it had. */
  lemma StoredExtends(entries: map<Product, string>, fetch: Product -> Option<string>, product: Product)
    ensures entries.Keys <= Stored(entries, fetch, product).Keys
    ensures forall p | p in entries :: Stored(entries, fetch, product)[p] == entries[p]
    ensures Stored(entries, fetch, product).Keys <= entries.Keys + {product}
  {
  }

  /** A successful parse is cached; the sentinel of a failed request and a
      raised error are not. */
  lemma StoredExactlyParsed(entries: map<Product, string>, fetch: Product -> Option<string>, product: Product)
    requires product !in entries
    ensures product in Stored(entries, fetch, product)
        <==> fetch(product).Some? && ParseVersionBody(fetch(product).value).Ok?
  {
  }

  /** Asking for one more product is one more step of the fold. */
  lemma StoredAllSnoc(entries: map<Product, string>, fetch: Product -> Option<string>, ps: seq<Product>, p: Product)
    ensures StoredAll(entries, fetch, ps + [p]) == Stored(StoredAll(entries, fetch, ps), fetch, p)
  {
    assert (ps + [p])[..|ps|] == ps;
  }

  /** Asking for `a` and then for `b` is asking for `a + b`. */
  lemma {:induction false} StoredAllAppend(entries: map<Product, string>, fetch: Product -> Option<string>,
                                           a: seq<Product>, b: seq<Product>)
    ensures StoredAll(StoredAll(entries, fetch, a), fetch, b) == StoredAll(entries, fetch, a + b)
    decreases |b|
  {
    if |b| > 0 {
      var init, last := b[..|b| - 1], b[|b| - 1];
      assert b == init + [last];
      assert a + b == (a + init) + [last];
      StoredAllAppend(entries, fetch, a, init);
      StoredAllSnoc(StoredAll(entries, fetch, a), fetch, init, last);
      StoredAllSnoc(entries, fetch, a + init, last);
    } else {
      assert a + b == a;
    }
  }

  /** Asking for `p` and then for `rest` is asking for `[p] + rest`. */
  lemma StoredAllCons(entries: map<Product, string>, fetch: Product -> Option<string>, p: Product, rest: seq<Product>)
    ensures StoredAll(Stored(entries, fetch, p), fetch, rest) == StoredAll(entries, fetch, [p] + rest)
  {
    assert [p][..0] == [];
    assert StoredAll(entries, fetch, [p]) == Stored(entries, fetch, p);
    StoredAllAppend(entries, fetch, [p], rest);
  }

  /** After asking for each of `ps`, a product is cached exactly when it was
      cached before, or was asked for and its response parsed; cached
      entries keep their values, and every product is answered as before. */
  lemma {:induction false} StoredAllCaches(entries: map<Product, string>, fetch: Product -> Option<string>,
                                           ps: seq<Product>, p: Product)
    ensures p in StoredAll(entries, fetch, ps)
        <==> p in entries || (p in ps && fetch(p).Some? && ParseVersionBody(fetch(p).value).Ok?)
    ensures p in entries ==> StoredAll(entries, fetch, ps)[p] == entries[p]
    ensures Lookup(StoredAll(entries, fetch, ps), fetch, p) == Lookup(entries, fetch, p)
    decreases |ps|
  {
    if |ps| > 0 {
      var init := ps[..|ps| - 1];
      var last := ps[|ps| - 1];
      StoredAllCaches(entries, fetch, init, p);
      StoredKeepsAnswers(StoredAll(entries, fetch, init), fetch, last, p);
      assert p in ps <==> p in init || p == last by {
        assert ps == init + [last];
      }
    }
  }
}
